/** Qualified-name flattening (`getQualifiedName`) and trigger names (`genTrig`). */
module Names {
  import opened Base
  import opened Terms

  /** `getQualifiedName`: the qualifier's flattened name, an underscore, then the name. */
  function FlattenName(n: QualifiedName): string
  {
    (if n.qualifier.Some? then FlattenName(n.qualifier.value) + "_" else "") + n.name
  }

  /** The components of a qualified name, outermost qualifier first. */
  function Parts(n: QualifiedName): seq<string>
  {
    (if n.qualifier.Some? then Parts(n.qualifier.value) else []) + [n.name]
  }

  /** The qualified-name term whose components are `parts`, outermost first. */
  function NameOf(parts: seq<string>): QualifiedName
    requires |parts| >= 1
    decreases |parts|
  {
    var qualifier := if |parts| == 1 then None else Some(NameOf(parts[..|parts| - 1]));
    QualifiedName(qualifier, parts[|parts| - 1])
  }

  /** Reference definition: the components joined with underscores, read from the left. */
  function Join(parts: seq<string>): string
  {
    if |parts| == 0 then ""
    else if |parts| == 1 then parts[0]
    else parts[0] + "_" + Join(parts[1..])
  }

  lemma {:induction false} PartsOfNameOf(parts: seq<string>)
    requires |parts| >= 1
    ensures Parts(NameOf(parts)) == parts
    decreases |parts|
  {
    var last := parts[|parts| - 1];
    if |parts| == 1 {
      assert NameOf(parts) == QualifiedName(None, last);
      assert [last] == parts;
    } else {
      var front := parts[..|parts| - 1];
      PartsOfNameOf(front);
      assert NameOf(parts) == QualifiedName(Some(NameOf(front)), last);
      assert Parts(NameOf(parts)) == Parts(NameOf(front)) + [last];
      assert front + [last] == parts;
    }
  }

  lemma {:induction false} JoinSnoc(xs: seq<string>, y: string)
    requires |xs| >= 1
    ensures Join(xs + [y]) == Join(xs) + "_" + y
    decreases |xs|
  {
    if |xs| == 1 {
      assert (xs + [y])[1..] == [y];
    } else {
      assert (xs + [y])[1..] == xs[1..] + [y];
      JoinSnoc(xs[1..], y);
    }
  }

  /** Flattening a qualified name joins its components with `_`, outermost first. */
  lemma {:induction false} FlattenIsJoin(n: QualifiedName)
    ensures FlattenName(n) == Join(Parts(n))
  {
    if n.qualifier.Some? {
      var q := n.qualifier.value;
      FlattenIsJoin(q);
      PartsNonEmpty(q);
      JoinSnoc(Parts(q), n.name);
    }
  }

  lemma {:induction false} PartsNonEmpty(n: QualifiedName)
    ensures |Parts(n)| >= 1 && Parts(n)[|Parts(n)| - 1] == n.name
  {
  }

  /** `[A,B,C]` flattens to `A_B_C` and `[A]` to `A`. */
  lemma FlattenExamples()
    ensures FlattenName(NameOf(["A", "B", "C"])) == "A_B_C"
    ensures FlattenName(NameOf(["A"])) == "A"
  {
  }

  /** The flattened name starts with the outermost component and ends with the name itself. */
  lemma {:induction false} FlattenBoundaries(n: QualifiedName)
    ensures Parts(n)[0] <= FlattenName(n)
    ensures |n.name| <= |FlattenName(n)|
    ensures FlattenName(n)[|FlattenName(n)| - |n.name|..] == n.name
  {
    if n.qualifier.Some? {
      var q := n.qualifier.value;
      FlattenBoundaries(q);
      PartsNonEmpty(q);
      assert Parts(n)[0] == Parts(q)[0];
      var f := FlattenName(q) + "_";
      assert FlattenName(n) == f + n.name;
      assert FlattenName(n)[..|Parts(q)[0]|] == FlattenName(q)[..|Parts(q)[0]|];
    }
  }

  /** With components that are non-empty and not underscore-bounded, the flattened name has no leading or trailing `_`. */
  lemma NoOuterUnderscore(n: QualifiedName)
    requires forall p :: p in Parts(n) ==> p != [] && p[0] != '_' && p[|p| - 1] != '_'
    ensures FlattenName(n) != []
    ensures FlattenName(n)[0] != '_' && FlattenName(n)[|FlattenName(n)| - 1] != '_'
  {
    FlattenBoundaries(n);
    PartsNonEmpty(n);
    var first := Parts(n)[0];
    assert first in Parts(n);
    assert n.name in Parts(n);
    assert FlattenName(n)[0] == first[0];
    var f := FlattenName(n);
    assert f[|f| - 1] == f[|f| - |n.name|..][|n.name| - 1];
  }

  /** `genTrig`: the NULL and HALT symbols name the built-in events; any other trigger must be a string. */
  function Trig(t: Cnst): Result<string>
  {
    if t == Symbol("NULL") then Ok("null")
    else if t == Symbol("HALT") then Ok("halt")
    else GetString(t)
  }

  /** The trigger term that denotes the event `name`. */
  function TrigTerm(name: string): Cnst
  {
    if name == "null" then Symbol("NULL")
    else if name == "halt" then Symbol("HALT")
    else StringCnst(name)
  }

  lemma TrigRoundTrip(name: string)
    ensures Trig(TrigTerm(name)) == Ok(name)
  {
  }

  /** A trigger lowers exactly when it is a string constant or one of the two built-in symbols. */
  lemma TrigDefined(t: Cnst)
    ensures Trig(t).Ok? <==> t.StringCnst? || t == Symbol("NULL") || t == Symbol("HALT")
    ensures t == Symbol("NULL") ==> Trig(t) == Ok("null")
    ensures t == Symbol("HALT") ==> Trig(t) == Ok("halt")
  {
  }
}
