/** What the two schema checkers of src/control/ToolInputValidator.ts compute, that they agree, and that filling in defaults
    reaches a fixpoint. */
module ToolInputValidator {
  import opened Basics
  import opened Json

  datatype JsonType = ObjectType | ArrayType | StringType | NumberType | IntegerType | BooleanType | NullType

  /** `$ref`: absent, a `#/$defs/` pointer already reduced to its token, or something the interpreter ignores. */
  datatype Ref = NoRef | ToDef(token: string) | Elsewhere

  datatype Additional = Unstated | AllowAny | Forbid | Each(schema: Schema)

  datatype Properties = NoProperties | Properties(schemas: map<string, Schema>)

  datatype Branches = NoBranches | Branches(options: seq<Schema>)

  datatype Schema = Schema(
    ref: Ref,
    jsonType: Option<JsonType>,
    choices: Option<seq<Json>>,
    minLength: Option<int>,
    minimum: Option<real>,
    maximum: Option<real>,
    minItems: Option<int>,
    items: Option<Schema>,
    properties: Properties,
    required: Option<seq<string>>,
    additional: Additional,
    oneOf: Branches,
    dflt: Option<Json>)

  /** The root's `$defs`. `rank` bounds how many references can be followed before a property, an item or an additional
      property is entered; `defaultFree` names definitions under which no default occurs. */
  datatype Definitions = Definitions(schemas: map<string, Schema>, rank: map<string, nat>, defaultFree: set<string>)

  datatype PathStep = Property(name: string) | Index(at: nat)

  datatype Issue = Issue(path: seq<PathStep>, keyword: string)

  datatype NodeResult = NodeResult(value: Json, errors: set<Issue>)

  // ---------------------------------------------------------------- resolving

  function Either<T>(first: Option<T>, second: Option<T>): (r: Option<T>)
  {
    if first.Some? then first else second
  }

  /** The target with every keyword written next to the reference put over it. */
  function Overridden(target: Schema, over: Schema): (r: Schema)
  {
    Schema(target.ref,
           Either(over.jsonType, target.jsonType), Either(over.choices, target.choices), Either(over.minLength, target.minLength),
           Either(over.minimum, target.minimum), Either(over.maximum, target.maximum), Either(over.minItems, target.minItems),
           Either(over.items, target.items),
           if over.properties.Properties? then over.properties else target.properties,
           Either(over.required, target.required),
           if over.additional.Unstated? then target.additional else over.additional,
           if over.oneOf.Branches? then over.oneOf else target.oneOf,
           Either(over.dflt, target.dflt))
  }

  /** One reference is followed, once: a reference in the target is not. */
  function Resolve(d: Definitions, s: Schema): (r: Schema)
  {
    if s.ref.ToDef? && s.ref.token in d.schemas then Overridden(d.schemas[s.ref.token], s) else s
  }

  // ----------------------------------------------------------------- guardedness

  ghost function BranchTurns(d: Definitions, branches: Branches): (r: set<nat>)
    decreases branches
  {
    if branches.NoBranches? then {} else set i | 0 <= i < |branches.options| :: Turns(d, branches.options[i])
  }

  /** How many references can be followed from a schema through `oneOf` branches alone. */
  ghost function Turns(d: Definitions, s: Schema): (r: nat)
    decreases s
  {
    var own := if s.ref.ToDef? && s.ref.token in d.rank then d.rank[s.ref.token] + 1 else 0;
    MaxNat({own} + BranchTurns(d, s.oneOf))
  }

  /** Every reference cycle passes through a property, an item or an additional property. */
  ghost predicate Guarded(d: Definitions)
  {
    forall t | t in d.schemas :: t in d.rank && BranchesBelow(d, d.schemas[t].oneOf, d.rank[t])
  }

  ghost predicate BranchesBelow(d: Definitions, branches: Branches, bound: nat)
  {
    branches.Branches? ==> forall i | 0 <= i < |branches.options| :: Turns(d, branches.options[i]) <= bound
  }

  lemma OwnBranchesBelow(d: Definitions, s: Schema)
    ensures BranchesBelow(d, s.oneOf, Turns(d, s))
  {
    if s.oneOf.Branches? {
      forall i | 0 <= i < |s.oneOf.options| ensures Turns(d, s.oneOf.options[i]) <= Turns(d, s) {
        assert Turns(d, s.oneOf.options[i]) in BranchTurns(d, s.oneOf);
      }
    }
  }

  lemma ReferenceIsAbove(d: Definitions, s: Schema)
    requires s.ref.ToDef? && s.ref.token in d.rank
    ensures d.rank[s.ref.token] < Turns(d, s)
  {
  }

  /** A branch of the resolved schema is closer to a value-consuming step than the schema itself. */
  lemma BranchIsCloser(d: Definitions, s: Schema, i: nat)
    requires Guarded(d) && Resolve(d, s).oneOf.Branches? && i < |Resolve(d, s).oneOf.options|
    ensures var b := Resolve(d, s).oneOf.options[i];
            Turns(d, b) < Turns(d, s) || (Turns(d, b) == Turns(d, s) && b < s)
  {
    var b := Resolve(d, s).oneOf.options[i];
    if s.oneOf.Branches? {
      OwnBranchesBelow(d, s);
      assert b == s.oneOf.options[i];
    } else {
      ReferenceIsAbove(d, s);
    }
  }

  // ------------------------------------------------------------------- one level

  predicate MatchesType(t: JsonType, v: Json)
  {
    match t
    case ObjectType => v.Obj?
    case ArrayType => v.Arr?
    case StringType => v.Str?
    case NumberType => v.Num?
    case IntegerType => v.Num? && v.number.Floor as real == v.number
    case BooleanType => v.Bool?
    case NullType => v.Null?
  }

  predicate IsChoice(choices: seq<Json>, v: Json)
  {
    exists i | 0 <= i < |choices| :: JsonEqual(choices[i], v)
  }

  predicate TypeOk(s: Schema, v: Json)
  {
    s.jsonType.Some? ==> MatchesType(s.jsonType.value, v)
  }

  predicate EnumOk(s: Schema, v: Json)
  {
    s.choices.Some? ==> IsChoice(s.choices.value, v)
  }

  predicate RangeOk(s: Schema, v: Json)
  {
    && (v.Str? && s.minLength.Some? ==> |v.text| >= s.minLength.value)
    && (v.Num? && s.minimum.Some? ==> v.number >= s.minimum.value)
    && (v.Num? && s.maximum.Some? ==> v.number <= s.maximum.value)
    && (v.Arr? && s.minItems.Some? ==> |v.items| >= s.minItems.value)
  }

  predicate RequiredOk(s: Schema, v: Json)
  {
    v.Obj? && s.required.Some? ==> forall name | name in s.required.value :: name in v.fields
  }

  /** The checks that look at the value itself and not into it. */
  predicate OwnOk(s: Schema, v: Json)
  {
    TypeOk(s, v) && EnumOk(s, v) && RangeOk(s, v) && RequiredOk(s, v)
  }

  function IssueUnless(ok: bool, path: seq<PathStep>, keyword: string): (r: set<Issue>)
  {
    if ok then {} else {Issue(path, keyword)}
  }

  function MissingFields(s: Schema, v: Json, path: seq<PathStep>): (r: set<Issue>)
  {
    if v.Obj? && s.required.Some?
    then set name | name in s.required.value && name !in v.fields :: Issue(path + [Property(name)], "required")
    else {}
  }

  /** What `validateNode` pushes for the value itself, once its type is right. */
  function OwnIssues(s: Schema, v: Json, path: seq<PathStep>): (r: set<Issue>)
  {
    IssueUnless(EnumOk(s, v), path, "enum")
    + IssueUnless(v.Str? && s.minLength.Some? ==> |v.text| >= s.minLength.value, path, "minLength")
    + IssueUnless(v.Num? && s.minimum.Some? ==> v.number >= s.minimum.value, path, "minimum")
    + IssueUnless(v.Num? && s.maximum.Some? ==> v.number <= s.maximum.value, path, "maximum")
    + IssueUnless(v.Arr? && s.minItems.Some? ==> |v.items| >= s.minItems.value, path, "minItems")
    + MissingFields(s, v, path)
  }

  lemma NothingMissing(s: Schema, v: Json, path: seq<PathStep>)
    ensures MissingFields(s, v, path) == {} <==> RequiredOk(s, v)
  {
    if v.Obj? && s.required.Some? && !RequiredOk(s, v) {
      var name :| name in s.required.value && name !in v.fields;
      assert Issue(path + [Property(name)], "required") in MissingFields(s, v, path);
    }
  }

  lemma OwnIssuesIffNotOk(s: Schema, v: Json, path: seq<PathStep>)
    requires TypeOk(s, v)
    ensures OwnIssues(s, v, path) == {} <==> OwnOk(s, v)
  {
    NothingMissing(s, v, path);
    var own := OwnIssues(s, v, path);
    assert !EnumOk(s, v) ==> Issue(path, "enum") in own;
    assert v.Str? && s.minLength.Some? && |v.text| < s.minLength.value ==> Issue(path, "minLength") in own;
    assert v.Num? && s.minimum.Some? && v.number < s.minimum.value ==> Issue(path, "minimum") in own;
    assert v.Num? && s.maximum.Some? && v.number > s.maximum.value ==> Issue(path, "maximum") in own;
    assert v.Arr? && s.minItems.Some? && |v.items| < s.minItems.value ==> Issue(path, "minItems") in own;
    assert MissingFields(s, v, path) <= own;
  }

  /** What governs a present field: a schema, nothing at all, or a ban. */
  datatype Rule = Anything | Banned | Governed(schema: Schema)

  function Props(s: Schema): (r: map<string, Schema>)
  {
    if s.properties.Properties? then s.properties.schemas else map[]
  }

  function RuleFor(s: Schema, name: string): (r: Rule)
  {
    if name in Props(s) then Governed(Props(s)[name])
    else if s.additional.Forbid? then Banned
    else if s.additional.Each? then Governed(s.additional.schema)
    else Anything
  }

  // --------------------------------------------------- matching without defaults

  predicate Matches(d: Definitions, s0: Schema, v: Json)
    requires Guarded(d)
    decreases v, Turns(d, s0), s0, 2
  {
    var s := Resolve(d, s0);
    && OwnOk(s, v)
    && KidsMatch(d, s0, v)
    && (s.oneOf.Branches? ==> |MatchingBranches(d, s0, v)| == 1)
  }

  predicate KidsMatch(d: Definitions, s0: Schema, v: Json)
    requires Guarded(d)
    decreases v, Turns(d, s0), s0, 1
  {
    var s := Resolve(d, s0);
    && (v.Arr? && s.items.Some? ==> forall i | 0 <= i < |v.items| :: Matches(d, s.items.value, v.items[i]))
    && (v.Obj? ==> forall name | name in v.fields :: FieldMatches(d, s0, v, name))
  }

  predicate FieldMatches(d: Definitions, s0: Schema, v: Json, name: string)
    requires Guarded(d) && v.Obj? && name in v.fields
    decreases v, Turns(d, s0), s0, 0
  {
    var rule := RuleFor(Resolve(d, s0), name);
    !rule.Banned? && (rule.Governed? ==> Matches(d, rule.schema, v.fields[name]))
  }

  function MatchingBranches(d: Definitions, s0: Schema, v: Json): (r: set<nat>)
    requires Guarded(d) && Resolve(d, s0).oneOf.Branches?
    decreases v, Turns(d, s0), s0, 1
  {
    var options := Resolve(d, s0).oneOf.options;
    set i: nat | 0 <= i < |options| && BranchMatches(d, s0, v, i) :: i
  }

  predicate BranchMatches(d: Definitions, s0: Schema, v: Json, i: nat)
    requires Guarded(d) && Resolve(d, s0).oneOf.Branches? && i < |Resolve(d, s0).oneOf.options|
    decreases v, Turns(d, s0), s0, 0
  {
    BranchIsCloser(d, s0, i);
    Matches(d, Resolve(d, s0).oneOf.options[i], v)
  }

  // ------------------------------------------------------- validating, with defaults

  /** Defaults are scalars, all the way down. */
  ghost predicate ScalarDefaults(s: Schema)
    decreases s, 0
  {
    && (s.items.Some? ==> ScalarDefaults(s.items.value))
    && (s.properties.Properties? ==> forall name | name in s.properties.schemas :: ScalarProperty(s.properties.schemas[name]))
    && (s.additional.Each? ==> ScalarDefaults(s.additional.schema))
    && (s.oneOf.Branches? ==> forall i | 0 <= i < |s.oneOf.options| :: ScalarDefaults(s.oneOf.options[i]))
  }

  ghost predicate ScalarProperty(s: Schema)
    decreases s, 1
  {
    ScalarDefaults(s) && (s.dflt.Some? ==> IsScalar(s.dflt.value))
  }

  ghost predicate ScalarDefinitions(d: Definitions)
  {
    forall t | t in d.schemas :: ScalarDefaults(d.schemas[t])
  }

  /** What validation needs: guarded references, and scalar defaults when it fills them in. */
  ghost predicate Fit(d: Definitions, s: Schema, fill: bool)
  {
    Guarded(d) && (fill ==> ScalarDefinitions(d) && ScalarDefaults(s))
  }

  lemma ResolveStaysFit(d: Definitions, s: Schema, fill: bool)
    requires Fit(d, s, fill)
    ensures Fit(d, Resolve(d, s), fill)
  {
  }

  lemma FitItems(d: Definitions, s: Schema, fill: bool)
    requires Fit(d, s, fill) && Resolve(d, s).items.Some?
    ensures Fit(d, Resolve(d, s).items.value, fill)
  {
    ResolveStaysFit(d, s, fill);
  }

  lemma FitField(d: Definitions, s: Schema, name: string, fill: bool)
    requires Fit(d, s, fill) && RuleFor(Resolve(d, s), name).Governed?
    ensures Fit(d, RuleFor(Resolve(d, s), name).schema, fill)
  {
    ResolveStaysFit(d, s, fill);
    assert name in Props(Resolve(d, s)) && fill ==> ScalarProperty(Props(Resolve(d, s))[name]);
  }

  lemma FitDefault(d: Definitions, s: Schema, name: string)
    requires Fit(d, s, true) && name in Props(Resolve(d, s)) && Props(Resolve(d, s))[name].dflt.Some?
    ensures Fit(d, Props(Resolve(d, s))[name], true) && IsScalar(Props(Resolve(d, s))[name].dflt.value)
  {
    ResolveStaysFit(d, s, true);
    assert ScalarProperty(Props(Resolve(d, s))[name]);
  }

  lemma FitBranch(d: Definitions, s: Schema, i: nat, fill: bool)
    requires Fit(d, s, fill) && Resolve(d, s).oneOf.Branches? && i < |Resolve(d, s).oneOf.options|
    ensures Fit(d, Resolve(d, s).oneOf.options[i], fill)
  {
    ResolveStaysFit(d, s, fill);
  }

  /** The absent fields that are filled in. */
  function Fills(s: Schema, v: Json): (r: set<string>)
    requires v.Obj?
  {
    set name | name in Props(s) && name !in v.fields && Props(s)[name].dflt.Some?
  }

  function FieldsAfter(s: Schema, v: Json, fill: bool): (r: set<string>)
    requires v.Obj?
  {
    v.fields.Keys + (if fill then Fills(s, v) else {})
  }

  /** One field of an object: validated under its rule, or taken from its default and validated. */
  ghost function FieldNode(d: Definitions, s0: Schema, v: Json, name: string, path: seq<PathStep>, fill: bool): (r: NodeResult)
    requires Fit(d, s0, fill) && v.Obj? && name in FieldsAfter(Resolve(d, s0), v, fill)
    ensures Height(r.value) < Height(v)
    decreases Height(v), Turns(d, s0), s0, 0
  {
    var s := Resolve(d, s0);
    var childPath := path + [Property(name)];
    if name in v.fields then
      FieldIsLower(v.fields, name);
      match RuleFor(s, name)
      case Anything => NodeResult(v.fields[name], {})
      case Banned => NodeResult(v.fields[name], {Issue(childPath, "additionalProperties")})
      case Governed(child) =>
        FitField(d, s0, name, fill);
        Node(d, child, v.fields[name], childPath, fill)
    else
      FitDefault(d, s0, name);
      Node(d, Props(s)[name], Props(s)[name].dflt.value, childPath, true)
  }

  ghost function ItemNode(d: Definitions, s0: Schema, v: Json, i: nat, path: seq<PathStep>, fill: bool): (r: NodeResult)
    requires Fit(d, s0, fill) && v.Arr? && i < |v.items| && Resolve(d, s0).items.Some?
    ensures Height(r.value) < Height(v)
    decreases Height(v), Turns(d, s0), s0, 0
  {
    ItemIsLower(v.items, i);
    FitItems(d, s0, fill);
    Node(d, Resolve(d, s0).items.value, v.items[i], path + [Index(i)], fill)
  }

  /** The value with every item and field replaced by its own result, and the issues found in them. */
  ghost function KidsNode(d: Definitions, s0: Schema, v: Json, path: seq<PathStep>, fill: bool): (r: NodeResult)
    requires Fit(d, s0, fill)
    ensures Height(r.value) <= Height(v)
    decreases Height(v), Turns(d, s0), s0, 1
  {
    var s := Resolve(d, s0);
    if v.Arr? && s.items.Some? then
      var items := seq(|v.items|, i requires 0 <= i < |v.items| => ItemNode(d, s0, v, i, path, fill).value);
      ArrHeightBound(items, Height(v));
      NodeResult(Arr(items), set i: nat, e | 0 <= i < |v.items| && e in ItemNode(d, s0, v, i, path, fill).errors :: e)
    else if v.Obj? then
      var fields := map name | name in FieldsAfter(s, v, fill) :: FieldNode(d, s0, v, name, path, fill).value;
      ObjHeightBound(fields, Height(v));
      NodeResult(Obj(fields), set name, e | name in FieldsAfter(s, v, fill) && e in FieldNode(d, s0, v, name, path, fill).errors :: e)
    else
      NodeResult(v, {})
  }

  ghost function BranchNode(d: Definitions, s0: Schema, v: Json, i: nat, path: seq<PathStep>, fill: bool): (r: NodeResult)
    requires Fit(d, s0, fill) && Resolve(d, s0).oneOf.Branches? && i < |Resolve(d, s0).oneOf.options|
    ensures Height(r.value) <= Height(v)
    decreases Height(v), Turns(d, s0), s0, 0
  {
    BranchIsCloser(d, s0, i);
    FitBranch(d, s0, i, fill);
    Node(d, Resolve(d, s0).oneOf.options[i], v, path, fill)
  }

  ghost function GoodBranches(d: Definitions, s0: Schema, v: Json, path: seq<PathStep>): (r: set<nat>)
    requires Guarded(d) && Resolve(d, s0).oneOf.Branches?
    decreases Height(v), Turns(d, s0), s0, 1
  {
    set i: nat | 0 <= i < |Resolve(d, s0).oneOf.options| && BranchNode(d, s0, v, i, path, false).errors == {} :: i
  }

  ghost function TheOnly(s: set<nat>): (r: nat)
    requires |s| == 1
    ensures s == {r}
  {
    var x :| x in s;
    assert |s - {x}| == 0;
    assert s == {x};
    x
  }

  /** `oneOf`, on the value whose children are done: exactly one branch must take it, and with defaults on that branch's
      result is the result. */
  ghost function OneOfNode(d: Definitions, s0: Schema, v: Json, path: seq<PathStep>, fill: bool): (r: NodeResult)
    requires Fit(d, s0, fill) && Resolve(d, s0).oneOf.Branches?
    ensures Height(r.value) <= Height(v)
    decreases Height(v), Turns(d, s0), s0, 2
  {
    var good := GoodBranches(d, s0, v, path);
    if |good| != 1 then NodeResult(v, {Issue(path, "oneOf")})
    else if fill then BranchNode(d, s0, v, TheOnly(good), path, true)
    else NodeResult(v, {})
  }

  /** `validateNode`; `fill` is `applyDefaults`. */
  ghost function Node(d: Definitions, s0: Schema, v: Json, path: seq<PathStep>, fill: bool): (r: NodeResult)
    requires Fit(d, s0, fill)
    ensures Height(r.value) <= Height(v)
    decreases Height(v), Turns(d, s0), s0, 3
  {
    var s := Resolve(d, s0);
    if !TypeOk(s, v) then NodeResult(v, {Issue(path, "type")})
    else
      var own := OwnIssues(s, v, path);
      var kids := KidsNode(d, s0, v, path, fill);
      if s.oneOf.NoBranches? then NodeResult(kids.value, own + kids.errors)
      else
        var chosen := OneOfNode(d, s0, kids.value, path, fill);
        NodeResult(chosen.value, own + kids.errors + chosen.errors)
  }

  // ------------------------------------------------ the two checkers agree

  lemma FieldWithoutFilling(d: Definitions, s0: Schema, v: Json, name: string, path: seq<PathStep>)
    requires Guarded(d) && v.Obj? && name in v.fields
    ensures var r := FieldNode(d, s0, v, name, path, false);
            && r.value == v.fields[name]
            && (r.errors == {} <==> FieldMatches(d, s0, v, name))
    decreases Height(v), Turns(d, s0), s0, 0
  {
    FieldIsLower(v.fields, name);
    var rule := RuleFor(Resolve(d, s0), name);
    if rule.Governed? {
      FitField(d, s0, name, false);
      CheckersAgree(d, rule.schema, v.fields[name], path + [Property(name)]);
    }
  }

  lemma ItemWithoutFilling(d: Definitions, s0: Schema, v: Json, i: nat, path: seq<PathStep>)
    requires Guarded(d) && v.Arr? && i < |v.items| && Resolve(d, s0).items.Some?
    ensures var r := ItemNode(d, s0, v, i, path, false);
            r.value == v.items[i] && (r.errors == {} <==> Matches(d, Resolve(d, s0).items.value, v.items[i]))
    decreases Height(v), Turns(d, s0), s0, 0
  {
    ItemIsLower(v.items, i);
    CheckersAgree(d, Resolve(d, s0).items.value, v.items[i], path + [Index(i)]);
  }

  lemma ItemsWithoutFilling(d: Definitions, s0: Schema, v: Json, path: seq<PathStep>)
    requires Guarded(d) && v.Arr? && Resolve(d, s0).items.Some?
    ensures KidsNode(d, s0, v, path, false).value == v
    ensures KidsNode(d, s0, v, path, false).errors == {} <==> KidsMatch(d, s0, v)
    decreases Height(v), Turns(d, s0), s0, 1
  {
    var r := KidsNode(d, s0, v, path, false);
    forall i: nat | i < |v.items|
      ensures ItemNode(d, s0, v, i, path, false).value == v.items[i]
      ensures ItemNode(d, s0, v, i, path, false).errors == {} <==> Matches(d, Resolve(d, s0).items.value, v.items[i])
      ensures ItemNode(d, s0, v, i, path, false).errors <= r.errors
    {
      ItemWithoutFilling(d, s0, v, i, path);
    }
    assert r.value.items == v.items;
  }

  lemma FieldsWithoutFilling(d: Definitions, s0: Schema, v: Json, path: seq<PathStep>)
    requires Guarded(d) && v.Obj?
    ensures KidsNode(d, s0, v, path, false).value == v
    ensures KidsNode(d, s0, v, path, false).errors == {} <==> KidsMatch(d, s0, v)
    decreases Height(v), Turns(d, s0), s0, 1
  {
    var r := KidsNode(d, s0, v, path, false);
    forall name | name in v.fields
      ensures FieldNode(d, s0, v, name, path, false).value == v.fields[name]
      ensures FieldNode(d, s0, v, name, path, false).errors == {} <==> FieldMatches(d, s0, v, name)
      ensures FieldNode(d, s0, v, name, path, false).errors <= r.errors
    {
      FieldWithoutFilling(d, s0, v, name, path);
    }
    assert r.value.fields == v.fields;
  }

  lemma KidsWithoutFilling(d: Definitions, s0: Schema, v: Json, path: seq<PathStep>)
    requires Guarded(d)
    ensures KidsNode(d, s0, v, path, false).value == v
    ensures KidsNode(d, s0, v, path, false).errors == {} <==> KidsMatch(d, s0, v)
    decreases Height(v), Turns(d, s0), s0, 2
  {
    if v.Arr? && Resolve(d, s0).items.Some? {
      ItemsWithoutFilling(d, s0, v, path);
    } else if v.Obj? {
      FieldsWithoutFilling(d, s0, v, path);
    }
  }

  lemma BranchesWithoutFilling(d: Definitions, s0: Schema, v: Json, path: seq<PathStep>)
    requires Guarded(d) && Resolve(d, s0).oneOf.Branches?
    ensures GoodBranches(d, s0, v, path) == MatchingBranches(d, s0, v)
    decreases Height(v), Turns(d, s0), s0, 1
  {
    forall i: nat | i < |Resolve(d, s0).oneOf.options|
      ensures BranchNode(d, s0, v, i, path, false).errors == {} <==> BranchMatches(d, s0, v, i)
    {
      BranchIsCloser(d, s0, i);
      CheckersAgree(d, Resolve(d, s0).oneOf.options[i], v, path);
    }
  }

  /** For every JSON tree and every guarded schema, validating without defaults returns the value as it was, and reports
      nothing exactly when `matchesSchemaWithoutDefaults` holds. */
  lemma {:induction false} CheckersAgree(d: Definitions, s0: Schema, v: Json, path: seq<PathStep>)
    requires Guarded(d)
    ensures Node(d, s0, v, path, false).value == v
    ensures Node(d, s0, v, path, false).errors == {} <==> Matches(d, s0, v)
    decreases Height(v), Turns(d, s0), s0, 3
  {
    var s := Resolve(d, s0);
    if TypeOk(s, v) {
      OwnIssuesIffNotOk(s, v, path);
      KidsWithoutFilling(d, s0, v, path);
      if s.oneOf.Branches? {
        BranchesWithoutFilling(d, s0, v, path);
      }
    }
  }

  // ------------------------------------------------- filling in defaults reaches a fixpoint

  /** No default occurs anywhere the schema can lead. */
  ghost predicate DefaultFree(d: Definitions, s: Schema)
    decreases s, 0
  {
    && (s.ref.ToDef? && s.ref.token in d.schemas ==> s.ref.token in d.defaultFree)
    && (s.items.Some? ==> DefaultFree(d, s.items.value))
    && (s.properties.Properties? ==> forall name | name in s.properties.schemas :: FreeProperty(d, s.properties.schemas[name]))
    && (s.additional.Each? ==> DefaultFree(d, s.additional.schema))
    && (s.oneOf.Branches? ==> forall i | 0 <= i < |s.oneOf.options| :: DefaultFree(d, s.oneOf.options[i]))
  }

  ghost predicate FreeProperty(d: Definitions, s: Schema)
    decreases s, 1
  {
    s.dflt.None? && DefaultFree(d, s)
  }

  ghost predicate FreeDefinitions(d: Definitions)
  {
    forall t | t in d.schemas && t in d.defaultFree :: DefaultFree(d, d.schemas[t])
  }

  /** No default occurs inside a `oneOf` branch. */
  ghost predicate Plain(d: Definitions, s: Schema)
    decreases s
  {
    && (s.items.Some? ==> Plain(d, s.items.value))
    && (s.properties.Properties? ==> forall name | name in s.properties.schemas :: Plain(d, s.properties.schemas[name]))
    && (s.additional.Each? ==> Plain(d, s.additional.schema))
    && (s.oneOf.Branches? ==> forall i | 0 <= i < |s.oneOf.options| :: Plain(d, s.oneOf.options[i]) && DefaultFree(d, s.oneOf.options[i]))
  }

  ghost predicate PlainDefinitions(d: Definitions)
  {
    FreeDefinitions(d) && forall t | t in d.schemas :: Plain(d, d.schemas[t])
  }

  lemma ResolveStaysFree(d: Definitions, s: Schema)
    requires FreeDefinitions(d) && DefaultFree(d, s)
    ensures DefaultFree(d, Resolve(d, s))
  {
  }

  lemma ResolveStaysPlain(d: Definitions, s: Schema)
    requires PlainDefinitions(d) && Plain(d, s)
    ensures Plain(d, Resolve(d, s))
  {
  }

  lemma FreeFieldUnfilled(d: Definitions, s0: Schema, v: Json, name: string, path: seq<PathStep>)
    requires Fit(d, s0, true) && FreeDefinitions(d) && DefaultFree(d, s0) && v.Obj? && name in v.fields
    ensures FieldNode(d, s0, v, name, path, true) == FieldNode(d, s0, v, name, path, false)
    decreases Height(v), Turns(d, s0), s0, 0
  {
    FieldIsLower(v.fields, name);
    ResolveStaysFree(d, s0);
    var rule := RuleFor(Resolve(d, s0), name);
    if rule.Governed? {
      FitField(d, s0, name, true);
      assert name in Props(Resolve(d, s0)) ==> FreeProperty(d, Props(Resolve(d, s0))[name]);
      FreeMeansUnfilled(d, rule.schema, v.fields[name], path + [Property(name)]);
    }
  }

  lemma FreeItemUnfilled(d: Definitions, s0: Schema, v: Json, i: nat, path: seq<PathStep>)
    requires Fit(d, s0, true) && FreeDefinitions(d) && DefaultFree(d, s0)
    requires v.Arr? && i < |v.items| && Resolve(d, s0).items.Some?
    ensures ItemNode(d, s0, v, i, path, true) == ItemNode(d, s0, v, i, path, false)
    decreases Height(v), Turns(d, s0), s0, 0
  {
    ItemIsLower(v.items, i);
    ResolveStaysFree(d, s0);
    FitItems(d, s0, true);
    FreeMeansUnfilled(d, Resolve(d, s0).items.value, v.items[i], path + [Index(i)]);
  }

  lemma FreeNeedsNoFields(d: Definitions, s0: Schema, v: Json)
    requires FreeDefinitions(d) && DefaultFree(d, s0) && v.Obj?
    ensures Fills(Resolve(d, s0), v) == {}
  {
    ResolveStaysFree(d, s0);
    forall name | name in Props(Resolve(d, s0)) ensures Props(Resolve(d, s0))[name].dflt.None? {
      assert FreeProperty(d, Props(Resolve(d, s0))[name]);
    }
  }

  lemma FreeKidsUnfilled(d: Definitions, s0: Schema, v: Json, path: seq<PathStep>)
    requires Fit(d, s0, true) && FreeDefinitions(d) && DefaultFree(d, s0)
    ensures KidsNode(d, s0, v, path, true) == KidsNode(d, s0, v, path, false)
    decreases Height(v), Turns(d, s0), s0, 2
  {
    if v.Arr? && Resolve(d, s0).items.Some? {
      FreeItemsUnfilled(d, s0, v, path);
    } else if v.Obj? {
      FreeFieldsUnfilled(d, s0, v, path);
    }
  }

  lemma FreeItemsUnfilled(d: Definitions, s0: Schema, v: Json, path: seq<PathStep>)
    requires Fit(d, s0, true) && FreeDefinitions(d) && DefaultFree(d, s0) && v.Arr? && Resolve(d, s0).items.Some?
    ensures KidsNode(d, s0, v, path, true) == KidsNode(d, s0, v, path, false)
    decreases Height(v), Turns(d, s0), s0, 1
  {
    forall i: nat | i < |v.items| ensures ItemNode(d, s0, v, i, path, true) == ItemNode(d, s0, v, i, path, false) {
      FreeItemUnfilled(d, s0, v, i, path);
    }
    assert KidsNode(d, s0, v, path, true).value.items == KidsNode(d, s0, v, path, false).value.items;
  }

  lemma FreeFieldsUnfilled(d: Definitions, s0: Schema, v: Json, path: seq<PathStep>)
    requires Fit(d, s0, true) && FreeDefinitions(d) && DefaultFree(d, s0) && v.Obj?
    ensures KidsNode(d, s0, v, path, true) == KidsNode(d, s0, v, path, false)
    decreases Height(v), Turns(d, s0), s0, 1
  {
    FreeNeedsNoFields(d, s0, v);
    forall name | name in v.fields ensures FieldNode(d, s0, v, name, path, true) == FieldNode(d, s0, v, name, path, false) {
      FreeFieldUnfilled(d, s0, v, name, path);
    }
    assert KidsNode(d, s0, v, path, true).value.fields == KidsNode(d, s0, v, path, false).value.fields;
  }

  lemma FreeBranchUnfilled(d: Definitions, s0: Schema, v: Json, i: nat, path: seq<PathStep>)
    requires Fit(d, s0, true) && FreeDefinitions(d)
    requires Resolve(d, s0).oneOf.Branches? && i < |Resolve(d, s0).oneOf.options|
    requires DefaultFree(d, Resolve(d, s0).oneOf.options[i])
    ensures BranchNode(d, s0, v, i, path, true) == BranchNode(d, s0, v, i, path, false)
    decreases Height(v), Turns(d, s0), s0, 0
  {
    BranchIsCloser(d, s0, i);
    FitBranch(d, s0, i, true);
    FreeMeansUnfilled(d, Resolve(d, s0).oneOf.options[i], v, path);
  }

  lemma FreeOneOfUnfilled(d: Definitions, s0: Schema, v: Json, path: seq<PathStep>)
    requires Fit(d, s0, true) && FreeDefinitions(d)
    requires Resolve(d, s0).oneOf.Branches?
    requires forall i | 0 <= i < |Resolve(d, s0).oneOf.options| :: DefaultFree(d, Resolve(d, s0).oneOf.options[i])
    ensures OneOfNode(d, s0, v, path, true) == OneOfNode(d, s0, v, path, false)
    decreases Height(v), Turns(d, s0), s0, 1
  {
    var good := GoodBranches(d, s0, v, path);
    if |good| == 1 {
      var i := TheOnly(good);
      assert i in good;
      FreeBranchUnfilled(d, s0, v, i, path);
      BranchIsCloser(d, s0, i);
      CheckersAgree(d, Resolve(d, s0).oneOf.options[i], v, path);
    }
  }

  /** A schema without defaults validates the same whether defaults are to be filled in or not. */
  lemma {:induction false} FreeMeansUnfilled(d: Definitions, s0: Schema, v: Json, path: seq<PathStep>)
    requires Fit(d, s0, true) && FreeDefinitions(d) && DefaultFree(d, s0)
    ensures Node(d, s0, v, path, true) == Node(d, s0, v, path, false)
    decreases Height(v), Turns(d, s0), s0, 3
  {
    ResolveStaysFree(d, s0);
    FreeKidsUnfilled(d, s0, v, path);
    if Resolve(d, s0).oneOf.Branches? {
      FreeOneOfUnfilled(d, s0, KidsNode(d, s0, v, path, false).value, path);
    }
  }

  /** Of a schema and of everything below it that is met in a value: items, properties and additional properties. */
  ghost predicate Throughout(s: Schema, p: Schema -> bool)
    decreases s, 1
  {
    p(s) && Below(s, p)
  }

  ghost predicate Below(s: Schema, p: Schema -> bool)
    decreases s, 0
  {
    && (s.items.Some? ==> Throughout(s.items.value, p))
    && (s.properties.Properties? ==> forall name | name in s.properties.schemas :: Throughout(s.properties.schemas[name], p))
    && (s.additional.Each? ==> Throughout(s.additional.schema, p))
  }

  ghost predicate BelowDefinitions(d: Definitions, p: Schema -> bool)
  {
    forall t | t in d.schemas :: Below(d.schemas[t], p)
  }

  lemma ResolveStaysBelow(d: Definitions, s: Schema, p: Schema -> bool)
    requires BelowDefinitions(d, p) && Below(s, p)
    ensures Below(Resolve(d, s), p)
  {
  }

  /** Every enumerated value that the schema accepts is filled up to an enumerated value. */
  ghost predicate EnumKept(d: Definitions, s0: Schema)
  {
    && Fit(d, s0, true)
    && var s := Resolve(d, s0);
       s.choices.Some? ==>
         forall i: nat, path: seq<PathStep> | i < |s.choices.value| && Node(d, s0, s.choices.value[i], path, true).errors == {} ::
           EnumOk(s, Node(d, s0, s.choices.value[i], path, true).value)
  }

  ghost function KeptIn(d: Definitions): (r: Schema -> bool)
  {
    s => EnumKept(d, s)
  }

  /** What makes the shape of a schema fit for the fixpoint. */
  ghost predicate Shaped(d: Definitions, s: Schema)
  {
    Fit(d, s, true) && PlainDefinitions(d) && Plain(d, s)
  }

  /** Everything the fixpoint theorem asks of a schema. */
  ghost predicate Fillable(d: Definitions, s: Schema)
  {
    Shaped(d, s) && Throughout(s, KeptIn(d)) && BelowDefinitions(d, KeptIn(d))
  }

  lemma ShapedField(d: Definitions, s0: Schema, name: string)
    requires Shaped(d, s0) && RuleFor(Resolve(d, s0), name).Governed?
    ensures Shaped(d, RuleFor(Resolve(d, s0), name).schema)
  {
    ResolveStaysPlain(d, s0);
    FitField(d, s0, name, true);
  }

  lemma FillableField(d: Definitions, s0: Schema, name: string)
    requires Fillable(d, s0) && RuleFor(Resolve(d, s0), name).Governed?
    ensures Fillable(d, RuleFor(Resolve(d, s0), name).schema)
  {
    ShapedField(d, s0, name);
    ResolveStaysBelow(d, s0, KeptIn(d));
  }

  lemma FillableItems(d: Definitions, s0: Schema)
    requires Fillable(d, s0) && Resolve(d, s0).items.Some?
    ensures Fillable(d, Resolve(d, s0).items.value)
  {
    ResolveStaysPlain(d, s0);
    FitItems(d, s0, true);
    ResolveStaysBelow(d, s0, KeptIn(d));
  }

  /** `v` came out of filling in: it matches, and filling in again changes nothing, wherever it is. */
  ghost predicate Settled(d: Definitions, s0: Schema, v: Json, path: seq<PathStep>)
    requires Fit(d, s0, true)
  {
    Matches(d, s0, v) && Node(d, s0, v, path, true) == NodeResult(v, {})
  }

  ghost predicate SameShape(v: Json, w: Json)
  {
    && (IsScalar(v) || IsScalar(w) ==> w == v)
    && (v.Arr? <==> w.Arr?) && (v.Obj? <==> w.Obj?)
    && (v.Arr? ==> |v.items| == |w.items|)
    && (v.Obj? ==> v.fields.Keys <= w.fields.Keys)
  }

  lemma SameShapeStaysOk(s: Schema, v: Json, w: Json)
    requires OwnOk(s, v) && SameShape(v, w) && EnumOk(s, w)
    ensures OwnOk(s, w)
  {
  }

  lemma EnumStays(d: Definitions, s0: Schema, v: Json, path: seq<PathStep>)
    requires EnumKept(d, s0) && EnumOk(Resolve(d, s0), v) && Node(d, s0, v, path, true).errors == {}
    ensures EnumOk(Resolve(d, s0), Node(d, s0, v, path, true).value)
  {
    var s := Resolve(d, s0);
    if s.choices.Some? {
      var i: nat :| i < |s.choices.value| && JsonEqual(s.choices.value[i], v);
      JsonEqualIsEquality(s.choices.value[i], v);
    }
  }

  /** A field of the filled object, looked at again. */
  lemma FieldSettles(d: Definitions, s0: Schema, v: Json, w: Json, name: string, path: seq<PathStep>, again: seq<PathStep>)
    requires Fillable(d, s0) && v.Obj? && name in FieldsAfter(Resolve(d, s0), v, true)
    requires FieldNode(d, s0, v, name, path, true).errors == {}
    requires w.Obj? && name in w.fields && w.fields[name] == FieldNode(d, s0, v, name, path, true).value
    ensures FieldMatches(d, s0, w, name)
    ensures FieldNode(d, s0, w, name, again, true) == NodeResult(w.fields[name], {})
    decreases Height(v), Turns(d, s0), s0, 0
  {
    var rule := RuleFor(Resolve(d, s0), name);
    if rule.Governed? {
      FillableField(d, s0, name);
      if name in v.fields {
        FieldIsLower(v.fields, name);
        FillingSettles(d, rule.schema, v.fields[name], path + [Property(name)], again + [Property(name)]);
      } else {
        FitDefault(d, s0, name);
        FillingSettles(d, rule.schema, rule.schema.dflt.value, path + [Property(name)], again + [Property(name)]);
      }
    }
  }

  lemma ItemSettles(d: Definitions, s0: Schema, v: Json, w: Json, i: nat, path: seq<PathStep>, again: seq<PathStep>)
    requires Fillable(d, s0) && v.Arr? && i < |v.items| && Resolve(d, s0).items.Some?
    requires ItemNode(d, s0, v, i, path, true).errors == {}
    requires w.Arr? && i < |w.items| && w.items[i] == ItemNode(d, s0, v, i, path, true).value
    ensures Matches(d, Resolve(d, s0).items.value, w.items[i])
    ensures ItemNode(d, s0, w, i, again, true) == NodeResult(w.items[i], {})
    decreases Height(v), Turns(d, s0), s0, 0
  {
    FillableItems(d, s0);
    ItemIsLower(v.items, i);
    FillingSettles(d, Resolve(d, s0).items.value, v.items[i], path + [Index(i)], again + [Index(i)]);
  }

  lemma FieldsSettle(d: Definitions, s0: Schema, v: Json, path: seq<PathStep>, again: seq<PathStep>)
    requires Fillable(d, s0) && v.Obj? && KidsNode(d, s0, v, path, true).errors == {}
    ensures var w := KidsNode(d, s0, v, path, true).value;
            SameShape(v, w) && KidsMatch(d, s0, w) && KidsNode(d, s0, w, again, true) == NodeResult(w, {})
    decreases Height(v), Turns(d, s0), s0, 1
  {
    var w := KidsNode(d, s0, v, path, true).value;
    forall name | name in w.fields
      ensures FieldMatches(d, s0, w, name)
      ensures FieldNode(d, s0, w, name, again, true) == NodeResult(w.fields[name], {})
    {
      NoErrorInField(d, s0, v, name, path);
      FieldSettles(d, s0, v, w, name, path, again);
    }
    assert FieldsAfter(Resolve(d, s0), w, true) == w.fields.Keys;
    assert KidsNode(d, s0, w, again, true).value.fields == w.fields;
  }

  lemma NoErrorInField(d: Definitions, s0: Schema, v: Json, name: string, path: seq<PathStep>)
    requires Fit(d, s0, true) && v.Obj? && KidsNode(d, s0, v, path, true).errors == {}
    requires name in FieldsAfter(Resolve(d, s0), v, true)
    ensures FieldNode(d, s0, v, name, path, true).errors == {}
  {
    assert FieldNode(d, s0, v, name, path, true).errors <= KidsNode(d, s0, v, path, true).errors;
  }

  lemma NoErrorInItem(d: Definitions, s0: Schema, v: Json, i: nat, path: seq<PathStep>)
    requires Fit(d, s0, true) && v.Arr? && i < |v.items| && Resolve(d, s0).items.Some?
    requires KidsNode(d, s0, v, path, true).errors == {}
    ensures ItemNode(d, s0, v, i, path, true).errors == {}
  {
    assert ItemNode(d, s0, v, i, path, true).errors <= KidsNode(d, s0, v, path, true).errors;
  }

  lemma ItemsSettle(d: Definitions, s0: Schema, v: Json, path: seq<PathStep>, again: seq<PathStep>)
    requires Fillable(d, s0) && v.Arr? && Resolve(d, s0).items.Some? && KidsNode(d, s0, v, path, true).errors == {}
    ensures var w := KidsNode(d, s0, v, path, true).value;
            SameShape(v, w) && KidsMatch(d, s0, w) && KidsNode(d, s0, w, again, true) == NodeResult(w, {})
    decreases Height(v), Turns(d, s0), s0, 1
  {
    var w := KidsNode(d, s0, v, path, true).value;
    forall i: nat | i < |w.items|
      ensures Matches(d, Resolve(d, s0).items.value, w.items[i])
      ensures ItemNode(d, s0, w, i, again, true) == NodeResult(w.items[i], {})
    {
      NoErrorInItem(d, s0, v, i, path);
      ItemSettles(d, s0, v, w, i, path, again);
    }
    assert KidsNode(d, s0, w, again, true).value.items == w.items;
  }

  lemma KidsSettle(d: Definitions, s0: Schema, v: Json, path: seq<PathStep>, again: seq<PathStep>)
    requires Fillable(d, s0) && KidsNode(d, s0, v, path, true).errors == {}
    ensures var w := KidsNode(d, s0, v, path, true).value;
            SameShape(v, w) && KidsMatch(d, s0, w) && KidsNode(d, s0, w, again, true) == NodeResult(w, {})
    decreases Height(v), Turns(d, s0), s0, 2
  {
    if v.Arr? && Resolve(d, s0).items.Some? {
      ItemsSettle(d, s0, v, path, again);
    } else if v.Obj? {
      FieldsSettle(d, s0, v, path, again);
    }
  }

  /** `oneOf` over a value it accepts: the one branch leaves the value alone, on this pass and on any other. */
  lemma OneOfSettles(d: Definitions, s0: Schema, w: Json, path: seq<PathStep>, again: seq<PathStep>)
    requires Fillable(d, s0) && Resolve(d, s0).oneOf.Branches? && OneOfNode(d, s0, w, path, true).errors == {}
    ensures OneOfNode(d, s0, w, path, true).value == w
    ensures |MatchingBranches(d, s0, w)| == 1
    ensures OneOfNode(d, s0, w, again, true) == NodeResult(w, {})
  {
    ResolveStaysPlain(d, s0);
    FreeOneOfUnfilled(d, s0, w, path);
    FreeOneOfUnfilled(d, s0, w, again);
    BranchesWithoutFilling(d, s0, w, path);
    BranchesWithoutFilling(d, s0, w, again);
  }

  /** With scalar defaults, none of them in a branch, and enumerations kept by filling, an input accepted with defaults
      yields a value that also validates without defaults, and that a second pass with defaults returns unchanged. */
  lemma {:induction false} FillingSettles(d: Definitions, s0: Schema, v: Json, path: seq<PathStep>, again: seq<PathStep>)
    requires Fillable(d, s0) && Node(d, s0, v, path, true).errors == {}
    ensures Settled(d, s0, Node(d, s0, v, path, true).value, again)
    decreases Height(v), Turns(d, s0), s0, 3
  {
    var s := Resolve(d, s0);
    var kids := KidsNode(d, s0, v, path, true);
    OwnIssuesIffNotOk(s, v, path);
    KidsSettle(d, s0, v, path, again);
    if s.oneOf.Branches? {
      OneOfSettles(d, s0, kids.value, path, again);
    }
    assert KeptIn(d)(s0);
    EnumStays(d, s0, v, path);
    SameShapeStaysOk(s, v, kids.value);
    OwnIssuesIffNotOk(s, kids.value, again);
  }

  // ------------------------------------------------ where the fixpoint needs its conditions

  /** The fixpoint, for every input of one schema. */
  ghost predicate SettlesAt(d: Definitions, s0: Schema)
  {
    && Fit(d, s0, true)
    && forall v: Json, path: seq<PathStep>, again: seq<PathStep> | Node(d, s0, v, path, true).errors == {} ::
         Settled(d, s0, Node(d, s0, v, path, true).value, again)
  }

  ghost function SettlesIn(d: Definitions): (r: Schema -> bool)
  {
    s => SettlesAt(d, s)
  }

  lemma FillableSettles(d: Definitions, s0: Schema)
    requires Fillable(d, s0)
    ensures SettlesAt(d, s0)
  {
    forall v: Json, path: seq<PathStep>, again: seq<PathStep> | Node(d, s0, v, path, true).errors == {}
      ensures Settled(d, s0, Node(d, s0, v, path, true).value, again)
    {
      FillingSettles(d, s0, v, path, again);
    }
  }

  /** The condition on enumerations is needed wherever it is asked for. */
  lemma SettlingKeepsEnum(d: Definitions, s0: Schema)
    requires SettlesAt(d, s0)
    ensures EnumKept(d, s0)
  {
    var s := Resolve(d, s0);
    if s.choices.Some? {
      forall i: nat, path: seq<PathStep> | i < |s.choices.value| && Node(d, s0, s.choices.value[i], path, true).errors == {}
        ensures EnumOk(s, Node(d, s0, s.choices.value[i], path, true).value)
      {
        assert Settled(d, s0, Node(d, s0, s.choices.value[i], path, true).value, path);
      }
    }
  }

  lemma {:induction false} SettlesBelowKeeps(d: Definitions, s: Schema)
    requires Below(s, SettlesIn(d))
    ensures Below(s, KeptIn(d))
    decreases s, 0
  {
    if s.items.Some? {
      SettlesThroughoutKeeps(d, s.items.value);
    }
    if s.properties.Properties? {
      forall name | name in s.properties.schemas ensures Throughout(s.properties.schemas[name], KeptIn(d)) {
        SettlesThroughoutKeeps(d, s.properties.schemas[name]);
      }
    }
    if s.additional.Each? {
      SettlesThroughoutKeeps(d, s.additional.schema);
    }
  }

  lemma {:induction false} SettlesThroughoutKeeps(d: Definitions, s: Schema)
    requires Throughout(s, SettlesIn(d))
    ensures Throughout(s, KeptIn(d))
    decreases s, 1
  {
    assert SettlesIn(d)(s);
    SettlingKeepsEnum(d, s);
    SettlesBelowKeeps(d, s);
  }

  lemma {:induction false} KeptBelowSettles(d: Definitions, s: Schema)
    requires Guarded(d) && ScalarDefinitions(d) && PlainDefinitions(d) && BelowDefinitions(d, KeptIn(d))
    requires ScalarDefaults(s) && Plain(d, s) && Below(s, KeptIn(d))
    ensures Below(s, SettlesIn(d))
    decreases s, 0
  {
    if s.items.Some? {
      KeptThroughoutSettles(d, s.items.value);
    }
    if s.properties.Properties? {
      forall name | name in s.properties.schemas ensures Throughout(s.properties.schemas[name], SettlesIn(d)) {
        assert ScalarProperty(s.properties.schemas[name]);
        KeptThroughoutSettles(d, s.properties.schemas[name]);
      }
    }
    if s.additional.Each? {
      KeptThroughoutSettles(d, s.additional.schema);
    }
  }

  lemma {:induction false} KeptThroughoutSettles(d: Definitions, s: Schema)
    requires Guarded(d) && ScalarDefinitions(d) && PlainDefinitions(d) && BelowDefinitions(d, KeptIn(d))
    requires ScalarDefaults(s) && Plain(d, s) && Throughout(s, KeptIn(d))
    ensures Throughout(s, SettlesIn(d))
    decreases s, 1
  {
    FillableSettles(d, s);
    assert SettlesIn(d)(s);
    KeptBelowSettles(d, s);
  }

  /** Filling in defaults reaches a fixpoint at a schema and at every schema below it and below the definitions, for every
      input, exactly when each enumerated value that one of them accepts is filled up to an enumerated value: a condition
      on the enumerated values alone. */
  lemma FillingSettlesIffEnumsKept(d: Definitions, s0: Schema)
    requires Shaped(d, s0)
    ensures Throughout(s0, SettlesIn(d)) && BelowDefinitions(d, SettlesIn(d))
       <==> Throughout(s0, KeptIn(d)) && BelowDefinitions(d, KeptIn(d))
  {
    if Throughout(s0, SettlesIn(d)) && BelowDefinitions(d, SettlesIn(d)) {
      SettlesThroughoutKeeps(d, s0);
      forall t | t in d.schemas ensures Below(d.schemas[t], KeptIn(d)) {
        SettlesBelowKeeps(d, d.schemas[t]);
      }
    }
    if Throughout(s0, KeptIn(d)) && BelowDefinitions(d, KeptIn(d)) {
      KeptThroughoutSettles(d, s0);
      forall t | t in d.schemas ensures Below(d.schemas[t], SettlesIn(d)) {
        KeptBelowSettles(d, d.schemas[t]);
      }
    }
  }

  ghost predicate ScalarChoices(s: Schema)
  {
    s.choices.Some? ==> forall i | 0 <= i < |s.choices.value| :: IsScalar(s.choices.value[i])
  }

  /** Scalar enumerations, as the tool definitions have them, are kept. */
  lemma ScalarEnumIsKept(d: Definitions, s0: Schema)
    requires Shaped(d, s0) && ScalarChoices(Resolve(d, s0))
    ensures EnumKept(d, s0)
  {
    var s := Resolve(d, s0);
    if s.choices.Some? {
      forall i: nat, path: seq<PathStep> | i < |s.choices.value| && Node(d, s0, s.choices.value[i], path, true).errors == {}
        ensures EnumOk(s, Node(d, s0, s.choices.value[i], path, true).value)
      {
        ScalarStays(d, s0, s.choices.value[i], path);
        OwnIssuesIffNotOk(s, s.choices.value[i], path);
      }
    }
  }

  lemma ScalarStays(d: Definitions, s0: Schema, v: Json, path: seq<PathStep>)
    requires Shaped(d, s0) && IsScalar(v) && Node(d, s0, v, path, true).errors == {}
    ensures Node(d, s0, v, path, true).value == v
  {
    if Resolve(d, s0).oneOf.Branches? {
      OneOfKeepsValue(d, s0, v, path);
    }
  }

  lemma OneOfKeepsValue(d: Definitions, s0: Schema, w: Json, path: seq<PathStep>)
    requires Shaped(d, s0) && Resolve(d, s0).oneOf.Branches?
    ensures OneOfNode(d, s0, w, path, true).value == w
  {
    ResolveStaysPlain(d, s0);
    FreeOneOfUnfilled(d, s0, w, path);
  }

  const BARE: Schema :=
    Schema(NoRef, None, None, None, None, None, None, None, NoProperties, None, Unstated, NoBranches, None)

  const NO_DEFINITIONS: Definitions := Definitions(map[], map[], {})

  /** An enumeration of the empty object, next to a property with a default. */
  const ENUM_OF_OBJECTS: Schema :=
    BARE.(choices := Some([Obj(map[])]), properties := Properties(map["p" := BARE.(dflt := Some(Null))]))

  lemma BareTakesNull(s: Schema, path: seq<PathStep>)
    requires s == BARE.(dflt := Some(Null)) && Fit(NO_DEFINITIONS, s, true)
    ensures Node(NO_DEFINITIONS, s, Null, path, true) == NodeResult(Null, {})
  {
    NothingMissing(s, Null, path);
  }

  /** The empty object is taken, but what it is filled up to is no longer one of the enumerated values: enumerations must
      be of scalars. */
  lemma ObjectEnumerationsDoNotSettle()
    ensures Fit(NO_DEFINITIONS, ENUM_OF_OBJECTS, true)
    ensures Node(NO_DEFINITIONS, ENUM_OF_OBJECTS, Obj(map[]), [], true).errors == {}
    ensures !Matches(NO_DEFINITIONS, ENUM_OF_OBJECTS, Node(NO_DEFINITIONS, ENUM_OF_OBJECTS, Obj(map[]), [], true).value)
  {
    var d, s, v := NO_DEFINITIONS, ENUM_OF_OBJECTS, Obj(map[]);
    assert ScalarProperty(Props(s)["p"]);
    assert s.properties.schemas.Keys == {"p"};
    JsonEqualIsEquality(s.choices.value[0], v);
    assert FieldsAfter(s, v, true) == {"p"};
    BareTakesNull(Props(s)["p"], [Property("p")]);
    assert FieldNode(d, s, v, "p", [], true) == NodeResult(Null, {});
    OwnIssuesIffNotOk(s, v, []);
    var w := Node(d, s, v, [], true).value;
    assert w == KidsNode(d, s, v, [], true).value;
    assert "p" in w.fields;
    JsonEqualIsEquality(s.choices.value[0], w);
  }
}
