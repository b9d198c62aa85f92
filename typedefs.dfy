/**
 * Typedef resolution (`addTypeDef`, `addTypeDefs`): repeated passes over the type
 * definitions, in list order, each adding every not-yet-defined name whose type
 * expression lowers against the table built so far. The loop stops when nothing is
 * pending (success) or when a full pass adds nothing (`UnresolvedTypeName`).
 */
module TypeDefs {
  import opened Base
  import opened Terms
  import opened TypeLowering
  import S = Syntax

  type TypeTable = map<string, S.Type>

  /** One visit of a definition: the `ContainsKey` guard, then `addTypeDef`. */
  function Visit(defs: TypeTable, td: TypeDef): TypeTable
  {
    if td.name in defs then defs
    else match LowerType(td.ty, defs)
      case Some(t) => defs[td.name := t]
      case None => defs
  }

  /** One pass of the `foreach` over the definitions, in list order. */
  function Pass(defs: TypeTable, tds: seq<TypeDef>): TypeTable
    decreases |tds|
  {
    if tds == [] then defs else Visit(Pass(defs, tds[..|tds| - 1]), tds[|tds| - 1])
  }

  /** The names the definitions define. */
  function Names(tds: seq<TypeDef>): set<string>
  {
    set i | 0 <= i < |tds| :: tds[i].name
  }

  /** The defined names not yet in the table. */
  function Pending(defs: TypeTable, tds: seq<TypeDef>): set<string>
  {
    Names(tds) - defs.Keys
  }

  /** The first definition, in list order, whose name is not yet in the table. */
  function FirstPending(defs: TypeTable, tds: seq<TypeDef>): string
    requires Pending(defs, tds) != {}
  {
    if tds[0].name !in defs then tds[0].name
    else
      assert Pending(defs, tds[1..]) != {} by {
        var n :| n in Pending(defs, tds);
        var i :| 0 <= i < |tds| && tds[i].name == n;
        assert tds[1..][i - 1] == tds[i];
      }
      FirstPending(defs, tds[1..])
  }

  /** Runs passes until nothing is pending or a pass adds nothing; the table reached. */
  function Settle(defs: TypeTable, tds: seq<TypeDef>): TypeTable
    decreases |Pending(defs, tds)|
  {
    if Pending(defs, tds) == {} then defs
    else
      var next := Pass(defs, tds);
      if next.Keys == defs.Keys then defs
      else
        PendingShrinks(defs, tds);
        Settle(next, tds)
  }

  /** The resolved table, or the first name the fixpoint cannot resolve. */
  function Resolve(defs: TypeTable, tds: seq<TypeDef>): Result<TypeTable>
  {
    var m := Settle(defs, tds);
    if Pending(m, tds) == {} then Ok(m) else Err(UnresolvedTypeName(FirstPending(m, tds)))
  }

  /** Every entry of `m` that is not in `defs` is the lowering, against `m`, of a definition of that name. */
  ghost predicate Justified(defs: TypeTable, m: TypeTable, tds: seq<TypeDef>)
  {
    forall k :: k in m && k !in defs ==>
      exists i :: 0 <= i < |tds| && tds[i].name == k && LowerType(tds[i].ty, m) == Some(m[k])
  }

  lemma VisitExtends(defs: TypeTable, td: TypeDef)
    ensures Extends(defs, Visit(defs, td))
    ensures Visit(defs, td).Keys <= defs.Keys + {td.name}
  {
  }

  /** A pass never overwrites an entry and only adds names that the definitions define. */
  lemma {:induction false} PassExtends(defs: TypeTable, tds: seq<TypeDef>)
    ensures Extends(defs, Pass(defs, tds))
    ensures Pass(defs, tds).Keys <= defs.Keys + Names(tds)
    decreases |tds|
  {
    if tds != [] {
      var front := tds[..|tds| - 1];
      PassExtends(defs, front);
      VisitExtends(Pass(defs, front), tds[|tds| - 1]);
      assert Names(front) <= Names(tds) by {
        forall n | n in Names(front) ensures n in Names(tds) {
          var i :| 0 <= i < |front| && front[i].name == n;
          assert tds[i] == front[i];
        }
      }
      assert tds[|tds| - 1].name in Names(tds);
    }
  }

  /** Every entry a pass adds is the lowering of its definition against the table the pass produces. */
  lemma {:induction false} PassJustified(defs: TypeTable, tds: seq<TypeDef>)
    ensures Justified(defs, Pass(defs, tds), tds)
    decreases |tds|
  {
    if tds != [] {
      var front := tds[..|tds| - 1];
      var last := tds[|tds| - 1];
      var p := Pass(defs, front);
      var q := Pass(defs, tds);
      assert q == Visit(p, last);
      PassJustified(defs, front);
      VisitExtends(p, last);
      forall k | k in q && k !in defs
        ensures exists i :: 0 <= i < |tds| && tds[i].name == k && LowerType(tds[i].ty, q) == Some(q[k])
      {
        if k in p {
          var i :| 0 <= i < |front| && front[i].name == k && LowerType(front[i].ty, p) == Some(p[k]);
          LowerTypeMonotone(front[i].ty, p, q);
          assert tds[i] == front[i];
        } else {
          assert k == last.name && LowerType(last.ty, p) == Some(q[k]);
          LowerTypeMonotone(last.ty, p, q);
          assert tds[|tds| - 1] == last;
        }
      }
    }
  }

  /** A pass that makes progress strictly shrinks the pending names. */
  lemma PendingShrinks(defs: TypeTable, tds: seq<TypeDef>)
    requires Pass(defs, tds).Keys != defs.Keys
    ensures Pending(Pass(defs, tds), tds) < Pending(defs, tds)
    ensures |Pending(Pass(defs, tds), tds)| < |Pending(defs, tds)|
  {
    PassExtends(defs, tds);
    GrowthShrinksPending(defs, Pass(defs, tds), tds);
  }

  lemma GrowthShrinksPending(defs: TypeTable, next: TypeTable, tds: seq<TypeDef>)
    requires defs.Keys <= next.Keys <= defs.Keys + Names(tds)
    requires next.Keys != defs.Keys
    ensures Pending(next, tds) < Pending(defs, tds)
    ensures |Pending(next, tds)| < |Pending(defs, tds)|
  {
    var k :| k in next.Keys && k !in defs.Keys;
    var before, after := Pending(defs, tds), Pending(next, tds);
    assert after <= before - {k};
    assert k in before;
    SubsetCard(after, before - {k});
  }

  lemma SubsetCard<T>(a: set<T>, b: set<T>)
    requires a <= b
    ensures |a| <= |b|
  {
    assert b == a + (b - a);
  }

  lemma {:induction false} PassPrefixExtends(defs: TypeTable, tds: seq<TypeDef>, i: nat)
    requires i <= |tds|
    ensures Extends(Pass(defs, tds[..i]), Pass(defs, tds))
    decreases |tds| - i
  {
    if i < |tds| {
      var front := tds[..|tds| - 1];
      assert front[..i] == tds[..i];
      PassPrefixExtends(defs, front, i);
      VisitExtends(Pass(defs, front), tds[|tds| - 1]);
    } else {
      assert tds[..i] == tds;
    }
  }

  /** A pass that adds no name changes nothing, so every pending definition failed to lower against the table. */
  lemma PassStuck(m: TypeTable, tds: seq<TypeDef>)
    requires Pass(m, tds).Keys == m.Keys
    ensures Pass(m, tds) == m
    ensures forall i :: 0 <= i < |tds| && tds[i].name !in m ==> LowerType(tds[i].ty, m).None?
  {
    PassExtends(m, tds);
    forall i | 0 <= i < |tds| && tds[i].name !in m
      ensures LowerType(tds[i].ty, m).None?
    {
      var p := Pass(m, tds[..i]);
      PassExtends(m, tds[..i]);
      PassPrefixExtends(m, tds, i);
      PassPrefixExtends(m, tds, i + 1);
      assert tds[..i + 1][..i] == tds[..i];
      assert p.Keys == m.Keys;
      assert p == m;
      assert Pass(m, tds[..i + 1]) == Visit(m, tds[i]);
    }
  }

  lemma JustifiedTrans(defs: TypeTable, mid: TypeTable, m: TypeTable, tds: seq<TypeDef>)
    requires Justified(defs, mid, tds) && Justified(mid, m, tds) && Extends(mid, m)
    ensures Justified(defs, m, tds)
  {
    forall k | k in m && k !in defs
      ensures exists i :: 0 <= i < |tds| && tds[i].name == k && LowerType(tds[i].ty, m) == Some(m[k])
    {
      if k in mid {
        var i :| 0 <= i < |tds| && tds[i].name == k && LowerType(tds[i].ty, mid) == Some(mid[k]);
        LowerTypeMonotone(tds[i].ty, mid, m);
      }
    }
  }

  /**
   * The table the fixpoint reaches keeps every earlier entry, adds only defined names,
   * each the lowering of its definition; and where names remain pending, none of their
   * definitions lowers (each mentions an undefined name or an unknown base type).
   */
  lemma {:induction false} SettleSound(defs: TypeTable, tds: seq<TypeDef>)
    ensures Extends(defs, Settle(defs, tds))
    ensures Settle(defs, tds).Keys <= defs.Keys + Names(tds)
    ensures Justified(defs, Settle(defs, tds), tds)
    ensures forall i :: 0 <= i < |tds| && tds[i].name !in Settle(defs, tds) ==>
      LowerType(tds[i].ty, Settle(defs, tds)).None?
    decreases |Pending(defs, tds)|
  {
    if Pending(defs, tds) == {} {
      forall i | 0 <= i < |tds| ensures tds[i].name in defs {
        assert tds[i].name in Names(tds);
        assert tds[i].name !in Pending(defs, tds);
      }
    } else {
      var next := Pass(defs, tds);
      if next.Keys == defs.Keys {
        PassStuck(defs, tds);
      } else {
        PendingShrinks(defs, tds);
        PassExtends(defs, tds);
        PassJustified(defs, tds);
        SettleSound(next, tds);
        JustifiedTrans(defs, next, Settle(next, tds), tds);
      }
    }
  }

  /**
   * On success every defined name is in the table, earlier entries are kept, and each
   * new entry is its definition lowered; on failure the reported name is defined but unresolved.
   */
  lemma ResolveSound(defs: TypeTable, tds: seq<TypeDef>)
    ensures Resolve(defs, tds).Ok? ==>
      var m := Resolve(defs, tds).value;
      Extends(defs, m) && m.Keys == defs.Keys + Names(tds) && Justified(defs, m, tds)
    ensures Resolve(defs, tds).Err? ==>
      exists n :: Resolve(defs, tds) == Err(UnresolvedTypeName(n)) && n in Names(tds) && n !in defs
  {
    SettleSound(defs, tds);
    var m := Settle(defs, tds);
    if Pending(m, tds) == {} {
      forall n | n in Names(tds) ensures n in m.Keys {
        assert n !in Pending(m, tds);
      }
    } else {
      var n := FirstPending(m, tds);
      FirstPendingIsPending(m, tds);
    }
  }

  lemma {:induction false} FirstPendingIsPending(defs: TypeTable, tds: seq<TypeDef>)
    requires Pending(defs, tds) != {}
    ensures FirstPending(defs, tds) in Pending(defs, tds)
    decreases |tds|
  {
    if tds[0].name !in defs {
      assert tds[0].name in Names(tds);
    } else {
      var n :| n in Pending(defs, tds);
      var i :| 0 <= i < |tds| && tds[i].name == n;
      assert tds[1..][i - 1] == tds[i];
      FirstPendingIsPending(defs, tds[1..]);
      var r := FirstPending(defs, tds[1..]);
      var j :| 0 <= j < |tds[1..]| && tds[1..][j].name == r;
      assert tds[j + 1] == tds[1..][j];
    }
  }

  /** No two different definitions share a name. */
  ghost predicate UniqueNames(tds: seq<TypeDef>)
  {
    forall a, b :: a in tds && b in tds && a.name == b.name ==> a == b
  }

  /**
   * `m` is a closed table for the definitions: it keeps `defs`, each new entry is its
   * definition lowered, and each definition left out fails to lower against it.
   */
  ghost predicate Closed(defs: TypeTable, m: TypeTable, tds: seq<TypeDef>)
  {
    Extends(defs, m) && Justified(defs, m, tds) &&
    forall td :: td in tds && td.name !in m ==> LowerType(td.ty, m).None?
  }

  /** The table the fixpoint reaches is closed. */
  lemma SettleClosed(defs: TypeTable, tds: seq<TypeDef>)
    ensures Closed(defs, Settle(defs, tds), tds)
  {
    SettleSound(defs, tds);
    var m := Settle(defs, tds);
    forall td | td in tds && td.name !in m ensures LowerType(td.ty, m).None? {
      var i :| 0 <= i < |tds| && tds[i] == td;
    }
  }

  /** Visiting a definition below a closed table stays below it. */
  lemma VisitBelow(defs: TypeTable, p: TypeTable, td: TypeDef, m: TypeTable, tds: seq<TypeDef>)
    requires UniqueNames(tds) && Closed(defs, m, tds) && td in tds
    requires Extends(defs, p) && Extends(p, m)
    ensures Extends(Visit(p, td), m)
  {
    if td.name !in p && LowerType(td.ty, p).Some? {
      LowerTypeMonotone(td.ty, p, m);
      assert td.name in m && td.name !in defs;
      var i :| 0 <= i < |tds| && tds[i].name == td.name && LowerType(tds[i].ty, m) == Some(m[td.name]);
      assert tds[i] in tds;
    }
  }

  /** A pass over definitions drawn from `tds`, started below a closed table, ends below it. */
  lemma {:induction false} PassBelow(defs: TypeTable, p: TypeTable, tds1: seq<TypeDef>, m: TypeTable, tds: seq<TypeDef>)
    requires UniqueNames(tds) && Closed(defs, m, tds) && forall td :: td in tds1 ==> td in tds
    requires Extends(defs, p) && Extends(p, m)
    ensures Extends(Pass(p, tds1), m)
    decreases |tds1|
  {
    if tds1 != [] {
      var front := tds1[..|tds1| - 1];
      assert forall td :: td in front ==> td in tds1;
      PassBelow(defs, p, front, m, tds);
      PassExtends(p, front);
      VisitBelow(defs, Pass(p, front), tds1[|tds1| - 1], m, tds);
    }
  }

  /** The fixpoint over definitions drawn from `tds`, started below a closed table, ends below it. */
  lemma {:induction false} SettleBelow(defs: TypeTable, p: TypeTable, tds1: seq<TypeDef>, m: TypeTable, tds: seq<TypeDef>)
    requires UniqueNames(tds) && Closed(defs, m, tds) && forall td :: td in tds1 ==> td in tds
    requires Extends(defs, p) && Extends(p, m)
    ensures Extends(Settle(p, tds1), m)
    decreases |Pending(p, tds1)|
  {
    if Pending(p, tds1) != {} && Pass(p, tds1).Keys != p.Keys {
      PendingShrinks(p, tds1);
      PassBelow(defs, p, tds1, m, tds);
      PassExtends(p, tds1);
      SettleBelow(defs, Pass(p, tds1), tds1, m, tds);
    }
  }

  lemma NamesOfSameElements(tds1: seq<TypeDef>, tds2: seq<TypeDef>)
    requires forall td :: td in tds1 ==> td in tds2
    ensures Names(tds1) <= Names(tds2)
  {
    forall n | n in Names(tds1) ensures n in Names(tds2) {
      var i :| 0 <= i < |tds1| && tds1[i].name == n;
      assert tds1[i] in tds2;
      var j :| 0 <= j < |tds2| && tds2[j] == tds1[i];
    }
  }

  /**
   * When no two definitions share a name, the order in which they are listed does not
   * matter: the fixpoint reaches the same table, and resolution succeeds for one order
   * exactly when it succeeds for the other, with the same result.
   */
  lemma ResolveOrderIndependent(defs: TypeTable, tds1: seq<TypeDef>, tds2: seq<TypeDef>)
    requires forall td :: td in tds1 <==> td in tds2
    requires UniqueNames(tds1)
    ensures Settle(defs, tds1) == Settle(defs, tds2)
    ensures Resolve(defs, tds1).Ok? <==> Resolve(defs, tds2).Ok?
    ensures Resolve(defs, tds1).Ok? ==> Resolve(defs, tds1) == Resolve(defs, tds2)
  {
    var m1, m2 := Settle(defs, tds1), Settle(defs, tds2);
    assert UniqueNames(tds2);
    SettleClosed(defs, tds1);
    SettleClosed(defs, tds2);
    SettleBelow(defs, defs, tds1, m2, tds2);
    SettleBelow(defs, defs, tds2, m1, tds1);
    assert m1.Keys == m2.Keys;
    NamesOfSameElements(tds1, tds2);
    NamesOfSameElements(tds2, tds1);
    assert Pending(m1, tds1) == Pending(m2, tds2);
  }

  /** A definition may refer to one listed after it: both orders resolve to the same table. */
  lemma ForwardReference()
    ensures var t1, t2 := TypeDef("T1", SeqType(NameType("T2"))), TypeDef("T2", BaseType("INT"));
      Resolve(map[], [t1, t2]) == Ok(map["T1" := S.Seq(S.Int), "T2" := S.Int]) &&
      Resolve(map[], [t2, t1]) == Ok(map["T1" := S.Seq(S.Int), "T2" := S.Int])
  {
    var t1, t2 := TypeDef("T1", SeqType(NameType("T2"))), TypeDef("T2", BaseType("INT"));
    BackwardReferenceResolves(t1, t2);
    ResolveOrderIndependent(map[], [t2, t1], [t1, t2]);
  }

  lemma BackwardReferenceResolves(t1: TypeDef, t2: TypeDef)
    requires t1 == TypeDef("T1", SeqType(NameType("T2"))) && t2 == TypeDef("T2", BaseType("INT"))
    ensures Resolve(map[], [t2, t1]) == Ok(map["T1" := S.Seq(S.Int), "T2" := S.Int])
    ensures UniqueNames([t2, t1])
  {
    var m := map["T1" := S.Seq(S.Int), "T2" := S.Int];
    var tds := [t2, t1];
    var empty: TypeTable := map[];
    BackwardReferencePass(t1, t2);
    assert tds[0].name == "T2" && tds[1].name == "T1";
    assert "T2" in Pending(empty, tds);
    assert Pending(m, tds) == {} by {
      forall n | n in Names(tds) ensures n in m {
        var k :| 0 <= k < |tds| && tds[k].name == n;
      }
    }
    assert Settle(empty, tds) == m by {
      assert Pass(empty, tds).Keys != empty.Keys by { assert "T2" in m.Keys; }
      PendingShrinks(empty, tds);
    }
  }

  lemma BackwardReferencePass(t1: TypeDef, t2: TypeDef)
    requires t1 == TypeDef("T1", SeqType(NameType("T2"))) && t2 == TypeDef("T2", BaseType("INT"))
    ensures Pass(map[], [t2, t1]) == map["T1" := S.Seq(S.Int), "T2" := S.Int]
  {
    var empty: TypeTable := map[];
    var p1 := map["T2" := S.Int];
    assert [t2, t1][..1] == [t2] && [t2][..0] == [];
    assert LowerType(t2.ty, empty) == Some(S.Int);
    assert Pass(empty, [t2]) == Visit(Pass(empty, []), t2) == p1;
    assert LowerType(t1.ty, p1) == Some(S.Seq(S.Int));
    assert Visit(p1, t1) == p1["T1" := S.Seq(S.Int)];
  }
}
