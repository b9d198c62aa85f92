/**
 * Type lowering (`genTypeExpr` and its helpers). A reference to a type name that is
 * not yet in the typedef table, or an unknown base type, lowers to `None` (the source's
 * null), and `None` propagates through sequence, map, tuple and named-tuple types.
 */
module TypeLowering {
  import opened Base
  import opened Terms
  import S = Syntax

  /** The base-type symbols `genBaseType` recognises. */
  const BaseTags: set<string> := {"INT", "BOOL", "REAL", "ANY", "EVENT", "NULL"}

  /** `defs'` keeps every entry of `defs` unchanged. */
  ghost predicate Extends(defs: map<string, S.Type>, defs': map<string, S.Type>)
  {
    forall k :: k in defs ==> k in defs' && defs'[k] == defs[k]
  }

  /** `genBaseType`; REAL denotes the machine type and EVENT lowers to Any, as in the source. */
  function LowerBaseType(tag: string): Option<S.Type>
  {
    match tag
    case "INT" => Some(S.Int)
    case "BOOL" => Some(S.Bool)
    case "REAL" => Some(S.Machine)
    case "ANY" => Some(S.Any)
    case "EVENT" => Some(S.Any)
    case "NULL" => Some(S.Null)
    case _ => None
  }

  /** `genTypeExpr`, with `genNameType` resolving names in the typedef table `defs`. */
  function LowerType(t: TypeExpr, defs: map<string, S.Type>): Option<S.Type>
  {
    match t
    case NameType(n) => if n in defs then Some(defs[n]) else None
    case BaseType(tag) => LowerBaseType(tag)
    case SeqType(x) =>
      var e :- LowerType(x, defs);
      Some(S.Type.Seq(e))
    case MapType(k, v) =>
      var kt :- LowerType(k, defs);
      var vt :- LowerType(v, defs);
      Some(S.Type.Map(kt, vt))
    case TupType(elems) =>
      var ts :- LowerTypes(elems, defs);
      Some(S.Type.Tuple(ts))
    case NmdTupType(fields) =>
      var fs :- LowerFields(fields, defs);
      Some(S.Type.NamedTuple(fs))
  }

  /** The element types of a tuple type, in order (`genTupType`). */
  function LowerTypes(c: Chain<TypeExpr>, defs: map<string, S.Type>): Option<seq<S.Type>>
  {
    match c
    case Nil => Some([])
    case Cons(h, rest) =>
      var ht :- LowerType(h, defs);
      var ts :- LowerTypes(rest, defs);
      Some([ht] + ts)
  }

  /** The fields of a named-tuple type, in order (`genNmdTupType`, `genNmdTupTypeField`). */
  function LowerFields(c: Chain<NmdTupTypeField>, defs: map<string, S.Type>): Option<seq<(string, S.Type)>>
  {
    match c
    case Nil => Some([])
    case Cons(f, rest) =>
      var ft :- LowerType(f.ty, defs);
      var fs :- LowerFields(rest, defs);
      Some([(f.name, ft)] + fs)
  }

  /** Reference definition: the type names a type expression mentions. */
  function RefNames(t: TypeExpr): set<string>
  {
    match t
    case NameType(n) => {n}
    case BaseType(_) => {}
    case SeqType(x) => RefNames(x)
    case MapType(k, v) => RefNames(k) + RefNames(v)
    case TupType(elems) => RefNamesOfTypes(elems)
    case NmdTupType(fields) => RefNamesOfFields(fields)
  }

  function RefNamesOfTypes(c: Chain<TypeExpr>): set<string>
  {
    match c
    case Nil => {}
    case Cons(h, rest) => RefNames(h) + RefNamesOfTypes(rest)
  }

  function RefNamesOfFields(c: Chain<NmdTupTypeField>): set<string>
  {
    match c
    case Nil => {}
    case Cons(f, rest) => RefNames(f.ty) + RefNamesOfFields(rest)
  }

  /** Reference definition: the base-type symbols a type expression mentions. */
  function Tags(t: TypeExpr): set<string>
  {
    match t
    case NameType(_) => {}
    case BaseType(tag) => {tag}
    case SeqType(x) => Tags(x)
    case MapType(k, v) => Tags(k) + Tags(v)
    case TupType(elems) => TagsOfTypes(elems)
    case NmdTupType(fields) => TagsOfFields(fields)
  }

  function TagsOfTypes(c: Chain<TypeExpr>): set<string>
  {
    match c
    case Nil => {}
    case Cons(h, rest) => Tags(h) + TagsOfTypes(rest)
  }

  function TagsOfFields(c: Chain<NmdTupTypeField>): set<string>
  {
    match c
    case Nil => {}
    case Cons(f, rest) => Tags(f.ty) + TagsOfFields(rest)
  }

  /**
   * A type expression lowers exactly when every name it mentions is already defined
   * and every base type it mentions is recognised; otherwise the null propagates to the top.
   */
  lemma {:induction false} LowerTypeDefined(t: TypeExpr, defs: map<string, S.Type>)
    ensures LowerType(t, defs).Some? <==> RefNames(t) <= defs.Keys && Tags(t) <= BaseTags
  {
    match t
    case NameType(n) =>
    case BaseType(tag) =>
    case SeqType(x) => LowerTypeDefined(x, defs);
    case MapType(k, v) => LowerTypeDefined(k, defs); LowerTypeDefined(v, defs);
    case TupType(elems) => LowerTypesDefined(elems, defs);
    case NmdTupType(fields) => LowerFieldsDefined(fields, defs);
  }

  lemma {:induction false} LowerTypesDefined(c: Chain<TypeExpr>, defs: map<string, S.Type>)
    ensures LowerTypes(c, defs).Some? <==> RefNamesOfTypes(c) <= defs.Keys && TagsOfTypes(c) <= BaseTags
  {
    match c
    case Nil =>
    case Cons(h, rest) => LowerTypeDefined(h, defs); LowerTypesDefined(rest, defs);
  }

  lemma {:induction false} LowerFieldsDefined(c: Chain<NmdTupTypeField>, defs: map<string, S.Type>)
    ensures LowerFields(c, defs).Some? <==> RefNamesOfFields(c) <= defs.Keys && TagsOfFields(c) <= BaseTags
  {
    match c
    case Nil =>
    case Cons(f, rest) => LowerTypeDefined(f.ty, defs); LowerFieldsDefined(rest, defs);
  }

  /** Lowering is monotone: a type that lowers keeps its lowering when the typedef table grows. */
  lemma {:induction false} LowerTypeMonotone(t: TypeExpr, defs: map<string, S.Type>, defs': map<string, S.Type>)
    requires Extends(defs, defs')
    requires LowerType(t, defs).Some?
    ensures LowerType(t, defs') == LowerType(t, defs)
  {
    match t
    case NameType(n) =>
    case BaseType(tag) =>
    case SeqType(x) => LowerTypeMonotone(x, defs, defs');
    case MapType(k, v) => LowerTypeMonotone(k, defs, defs'); LowerTypeMonotone(v, defs, defs');
    case TupType(elems) => LowerTypesMonotone(elems, defs, defs');
    case NmdTupType(fields) => LowerFieldsMonotone(fields, defs, defs');
  }

  lemma {:induction false} LowerTypesMonotone(c: Chain<TypeExpr>, defs: map<string, S.Type>, defs': map<string, S.Type>)
    requires Extends(defs, defs')
    requires LowerTypes(c, defs).Some?
    ensures LowerTypes(c, defs') == LowerTypes(c, defs)
  {
    match c
    case Nil =>
    case Cons(h, rest) => LowerTypeMonotone(h, defs, defs'); LowerTypesMonotone(rest, defs, defs');
  }

  lemma {:induction false} LowerFieldsMonotone(c: Chain<NmdTupTypeField>, defs: map<string, S.Type>, defs': map<string, S.Type>)
    requires Extends(defs, defs')
    requires LowerFields(c, defs).Some?
    ensures LowerFields(c, defs') == LowerFields(c, defs)
  {
    match c
    case Nil =>
    case Cons(f, rest) => LowerTypeMonotone(f.ty, defs, defs'); LowerFieldsMonotone(rest, defs, defs');
  }

  /** A tuple type lowers element by element: same length, same order. */
  lemma {:induction false} LowerTypesElementwise(c: Chain<TypeExpr>, defs: map<string, S.Type>)
    ensures LowerTypes(c, defs).Some? <==>
      forall i :: 0 <= i < |Elements(c)| ==> LowerType(Elements(c)[i], defs).Some?
    ensures LowerTypes(c, defs).Some? ==>
      |LowerTypes(c, defs).value| == |Elements(c)| &&
      forall i :: 0 <= i < |Elements(c)| ==> LowerType(Elements(c)[i], defs) == Some(LowerTypes(c, defs).value[i])
  {
    match c
    case Nil =>
    case Cons(h, rest) =>
      LowerTypesElementwise(rest, defs);
      var es, tail := Elements(c), Elements(rest);
      assert es == [h] + tail;
      if LowerType(h, defs).None? {
        assert LowerTypes(c, defs).None?;
        assert !LowerType(Elements(c)[0], defs).Some?;
      } else if LowerTypes(rest, defs).None? {
        assert LowerTypes(c, defs).None?;
        var k :| 0 <= k < |tail| && !LowerType(tail[k], defs).Some?;
        assert Elements(c)[k + 1] == tail[k];
        assert !LowerType(Elements(c)[k + 1], defs).Some?;
      } else {
        var ts := LowerTypes(rest, defs).value;
        assert LowerTypes(c, defs) == Some([LowerType(h, defs).value] + ts);
        forall i | 0 <= i < |es|
          ensures LowerType(es[i], defs) == Some(LowerTypes(c, defs).value[i])
        {
          if i > 0 {
            assert es[i] == tail[i - 1];
          }
        }
      }
  }

  /** A named-tuple type lowers field by field: same length, same names, same order. */
  lemma {:induction false} LowerFieldsElementwise(c: Chain<NmdTupTypeField>, defs: map<string, S.Type>)
    ensures LowerFields(c, defs).Some? ==>
      |LowerFields(c, defs).value| == |Elements(c)| &&
      forall i :: 0 <= i < |Elements(c)| ==>
        LowerFields(c, defs).value[i].0 == Elements(c)[i].name &&
        LowerType(Elements(c)[i].ty, defs) == Some(LowerFields(c, defs).value[i].1)
  {
    match c
    case Nil =>
    case Cons(f, rest) =>
      LowerFieldsElementwise(rest, defs);
      assert forall i :: 1 <= i < |Elements(c)| ==> Elements(c)[i] == Elements(rest)[i - 1];
  }

  /** `genTupType` as a loop over the chain of element types. */
  method LowerTupTypeLoop(elems: Chain<TypeExpr>, defs: map<string, S.Type>) returns (r: Option<S.Type>)
    ensures r == LowerType(TupType(elems), defs)
  {
    var x := elems;
    var acc: seq<S.Type> := [];
    assert forall rest: seq<S.Type> :: [] + rest == rest;
    while x.Cons?
      invariant LowerTypes(elems, defs) == (if LowerTypes(x, defs).Some? then Some(acc + LowerTypes(x, defs).value) else None)
      decreases x
    {
      var z := LowerType(x.hd, defs);
      if z.None? {
        return None;
      }
      assert LowerTypes(x, defs) == (if LowerTypes(x.tl, defs).Some? then Some([z.value] + LowerTypes(x.tl, defs).value) else None);
      assert forall rest: seq<S.Type> :: acc + ([z.value] + rest) == (acc + [z.value]) + rest;
      acc := acc + [z.value];
      x := x.tl;
    }
    assert acc + [] == acc;
    return Some(S.Type.Tuple(acc));
  }

  /** `genNmdTupType` as a loop over the chain of fields. */
  method LowerNmdTupTypeLoop(fields: Chain<NmdTupTypeField>, defs: map<string, S.Type>) returns (r: Option<S.Type>)
    ensures r == LowerType(NmdTupType(fields), defs)
  {
    var x := fields;
    var acc: seq<(string, S.Type)> := [];
    assert forall rest: seq<(string, S.Type)> :: [] + rest == rest;
    while x.Cons?
      invariant LowerFields(fields, defs) == (if LowerFields(x, defs).Some? then Some(acc + LowerFields(x, defs).value) else None)
      decreases x
    {
      var z := LowerType(x.hd.ty, defs);
      if z.None? {
        return None;
      }
      var field := (x.hd.name, z.value);
      assert LowerFields(x, defs) == (if LowerFields(x.tl, defs).Some? then Some([field] + LowerFields(x.tl, defs).value) else None);
      assert forall rest: seq<(string, S.Type)> :: acc + ([field] + rest) == (acc + [field]) + rest;
      acc := acc + [field];
      x := x.tl;
    }
    assert acc + [] == acc;
    return Some(S.Type.NamedTuple(acc));
  }
}
