/** JSON values as trees; object fields have no order and no duplicates. */
module Json {
  datatype Json =
    | Null
    | Bool(flag: bool)
    | Num(number: real)
    | Str(text: string)
    | Arr(items: seq<Json>)
    | Obj(fields: map<string, Json>)

  predicate IsScalar(v: Json)
  {
    !v.Arr? && !v.Obj?
  }

  /** The structural comparison of src/control/ToolInputValidator.ts. */
  predicate JsonEqual(left: Json, right: Json)
    decreases left
  {
    if left.Arr? || right.Arr? then
      left.Arr? && right.Arr? && |left.items| == |right.items|
      && forall i | 0 <= i < |left.items| :: JsonEqual(left.items[i], right.items[i])
    else if left.Obj? || right.Obj? then
      left.Obj? && right.Obj? && left.fields.Keys == right.fields.Keys
      && forall k | k in left.fields :: JsonEqual(left.fields[k], right.fields[k])
    else
      left == right
  }

  /** It is equality: it tells apart exactly the values that differ. */
  lemma {:induction false} JsonEqualIsEquality(left: Json, right: Json)
    ensures JsonEqual(left, right) <==> left == right
    decreases left
  {
    if left.Arr? && right.Arr? && |left.items| == |right.items| {
      forall i | 0 <= i < |left.items| ensures JsonEqual(left.items[i], right.items[i]) <==> left.items[i] == right.items[i] {
        JsonEqualIsEquality(left.items[i], right.items[i]);
      }
      assert JsonEqual(left, right) ==> left.items == right.items;
    } else if left.Obj? && right.Obj? && left.fields.Keys == right.fields.Keys {
      forall k | k in left.fields ensures JsonEqual(left.fields[k], right.fields[k]) <==> left.fields[k] == right.fields[k] {
        JsonEqualIsEquality(left.fields[k], right.fields[k]);
      }
      assert JsonEqual(left, right) ==> left.fields == right.fields;
    }
  }

  // ------------------------------------------------------------------- height

  ghost function MaxNat(s: set<nat>): (r: nat)
    ensures forall x | x in s :: x <= r
    ensures s != {} ==> r in s
  {
    if s == {} then 0
    else
      var x :| x in s;
      var m := MaxNat(s - {x});
      assert s == (s - {x}) + {x};
      if m >= x then m else x
  }

  ghost function ChildHeights(v: Json): (r: set<nat>)
    decreases v, 0
  {
    match v
    case Arr(items) => set i | 0 <= i < |items| :: Height(items[i])
    case Obj(fields) => set k | k in fields :: Height(fields[k])
    case _ => {}
  }

  /** How deeply containers nest; a scalar has height 0. */
  ghost function Height(v: Json): (r: nat)
    decreases v, 1
  {
    if IsScalar(v) then 0 else 1 + MaxNat(ChildHeights(v))
  }

  lemma ItemIsLower(items: seq<Json>, i: nat)
    requires i < |items|
    ensures Height(items[i]) < Height(Arr(items))
  {
    assert Height(items[i]) in ChildHeights(Arr(items));
  }

  lemma FieldIsLower(fields: map<string, Json>, k: string)
    requires k in fields
    ensures Height(fields[k]) < Height(Obj(fields))
  {
    assert Height(fields[k]) in ChildHeights(Obj(fields));
  }

  lemma ArrHeightBound(items: seq<Json>, bound: nat)
    requires bound > 0 && (forall i | 0 <= i < |items| :: Height(items[i]) < bound)
    ensures Height(Arr(items)) <= bound
  {
    var heights := ChildHeights(Arr(items));
    if heights != {} {
      var i :| 0 <= i < |items| && Height(items[i]) == MaxNat(heights);
    }
  }

  lemma ObjHeightBound(fields: map<string, Json>, bound: nat)
    requires bound > 0 && (forall k | k in fields :: Height(fields[k]) < bound)
    ensures Height(Obj(fields)) <= bound
  {
    var heights := ChildHeights(Obj(fields));
    if heights != {} {
      var k :| k in fields && Height(fields[k]) == MaxNat(heights);
    }
  }
}
