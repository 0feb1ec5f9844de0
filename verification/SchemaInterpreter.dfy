/** The loops of `validateNode` (src/control/ToolInputValidator.ts), which rewrite the value they validate. */
module SchemaInterpreter {
  import opened Basics
  import opened Json
  import opened ToolInputValidator

  /** The result of every field there will be. */
  ghost function FieldResults(d: Definitions, s0: Schema, v: Json, path: seq<PathStep>, fill: bool): (r: map<string, NodeResult>)
    requires Fit(d, s0, fill) && v.Obj?
  {
    map name | name in FieldsAfter(Resolve(d, s0), v, fill) :: FieldNode(d, s0, v, name, path, fill)
  }

  ghost function ErrorsIn(results: map<string, NodeResult>, done: set<string>): (r: set<Issue>)
  {
    set name, e | name in results && name in done && e in results[name].errors :: e
  }

  /** The object being rewritten once the fields named in `done` have been dealt with. */
  ghost predicate PartlyWritten(results: map<string, NodeResult>, before: map<string, Json>, done: set<string>,
                                fields: map<string, Json>, errors: set<Issue>)
  {
    && fields.Keys == before.Keys + done * results.Keys
    && (forall name | name in fields ::
          fields[name] == if name in done && name in results then results[name].value else before[name])
    && errors == ErrorsIn(results, done)
  }

  lemma FieldDone(results: map<string, NodeResult>, before: map<string, Json>, done: set<string>,
                  fields: map<string, Json>, errors: set<Issue>, name: string)
    requires PartlyWritten(results, before, done, fields, errors) && name in results
    ensures PartlyWritten(results, before, done + {name}, fields[name := results[name].value], errors + results[name].errors)
  {
  }

  lemma AbsentFieldDone(results: map<string, NodeResult>, before: map<string, Json>, done: set<string>,
                        fields: map<string, Json>, errors: set<Issue>, name: string)
    requires PartlyWritten(results, before, done, fields, errors) && name !in results
    ensures PartlyWritten(results, before, done + {name}, fields, errors)
  {
  }

  lemma NoFieldsDone(results: map<string, NodeResult>, before: map<string, Json>)
    ensures PartlyWritten(results, before, {}, before, {})
  {
  }

  lemma AllFieldsDone(d: Definitions, s0: Schema, v: Json, path: seq<PathStep>, fill: bool, done: set<string>,
                      fields: map<string, Json>, errors: set<Issue>)
    requires Fit(d, s0, fill) && v.Obj? && PartlyWritten(FieldResults(d, s0, v, path, fill), v.fields, done, fields, errors)
    requires FieldsAfter(Resolve(d, s0), v, fill) <= done
    ensures KidsNode(d, s0, v, path, fill) == NodeResult(Obj(fields), errors)
  {
    KidsOfResults(d, s0, v, path, fill);
    EverythingWritten(FieldResults(d, s0, v, path, fill), v.fields, done, fields, errors);
  }

  lemma KidsOfResults(d: Definitions, s0: Schema, v: Json, path: seq<PathStep>, fill: bool)
    requires Fit(d, s0, fill) && v.Obj?
    ensures var results := FieldResults(d, s0, v, path, fill);
            && results.Keys == FieldsAfter(Resolve(d, s0), v, fill)
            && KidsNode(d, s0, v, path, fill).value == Obj(map name | name in results :: results[name].value)
            && KidsNode(d, s0, v, path, fill).errors == set name, e | name in results && e in results[name].errors :: e
  {
    var results := FieldResults(d, s0, v, path, fill);
    var r := KidsNode(d, s0, v, path, fill);
    assert r.value.fields == map name | name in results :: results[name].value;
    var union := set name, e | name in results && e in results[name].errors :: e;
    forall e | e in r.errors ensures e in union {
      var name :| name in FieldsAfter(Resolve(d, s0), v, fill) && e in FieldNode(d, s0, v, name, path, fill).errors;
      assert e in results[name].errors;
    }
    forall e | e in union ensures e in r.errors {
      var name :| name in results && e in results[name].errors;
      assert e in FieldNode(d, s0, v, name, path, fill).errors;
    }
  }

  lemma EverythingWritten(results: map<string, NodeResult>, before: map<string, Json>, done: set<string>,
                          fields: map<string, Json>, errors: set<Issue>)
    requires PartlyWritten(results, before, done, fields, errors) && before.Keys <= results.Keys <= done
    ensures fields == map name | name in results :: results[name].value
    ensures errors == set name, e | name in results && e in results[name].errors :: e
  {
  }

  /** One named property: validated when present, filled in and validated when it has a default, else left out. */
  method ValidateProperty(d: Definitions, s0: Schema, v: Json, name: string, path: seq<PathStep>, fill: bool,
                          fields: map<string, Json>, errors: set<Issue>, ghost done: set<string>)
    returns (fields': map<string, Json>, errors': set<Issue>)
    requires Fit(d, s0, fill) && v.Obj? && name in Props(Resolve(d, s0))
    requires PartlyWritten(FieldResults(d, s0, v, path, fill), v.fields, done, fields, errors)
    ensures PartlyWritten(FieldResults(d, s0, v, path, fill), v.fields, done + {name}, fields', errors')
    decreases Height(v), Turns(d, s0), s0, 0
  {
    var property := Props(Resolve(d, s0))[name];
    if name in v.fields {
      FitField(d, s0, name, fill);
      FieldIsLower(v.fields, name);
      FieldDone(FieldResults(d, s0, v, path, fill), v.fields, done, fields, errors, name);
      var fieldValue, fieldErrors := ValidateNode(d, property, v.fields[name], path + [Property(name)], fill);
      fields', errors' := fields[name := fieldValue], errors + fieldErrors;
    } else if fill && property.dflt.Some? {
      FitDefault(d, s0, name);
      FieldDone(FieldResults(d, s0, v, path, fill), v.fields, done, fields, errors, name);
      var fieldValue, fieldErrors := ValidateNode(d, property, property.dflt.value, path + [Property(name)], true);
      fields', errors' := fields[name := fieldValue], errors + fieldErrors;
    } else {
      AbsentFieldDone(FieldResults(d, s0, v, path, fill), v.fields, done, fields, errors, name);
      fields', errors' := fields, errors;
    }
  }

  /** A field no property names: banned, left alone, or validated. */
  method ValidateUnknownField(d: Definitions, s0: Schema, v: Json, name: string, path: seq<PathStep>, fill: bool,
                              fields: map<string, Json>, errors: set<Issue>, ghost done: set<string>)
    returns (fields': map<string, Json>, errors': set<Issue>)
    requires Fit(d, s0, fill) && v.Obj? && name in v.fields && name !in Props(Resolve(d, s0))
    requires PartlyWritten(FieldResults(d, s0, v, path, fill), v.fields, done, fields, errors)
    ensures PartlyWritten(FieldResults(d, s0, v, path, fill), v.fields, done + {name}, fields', errors')
    decreases Height(v), Turns(d, s0), s0, 0
  {
    var s := Resolve(d, s0);
    var value, fieldErrors := v.fields[name], {};
    if s.additional.Forbid? {
      fieldErrors := {Issue(path + [Property(name)], "additionalProperties")};
    } else if s.additional.Each? {
      FitField(d, s0, name, fill);
      FieldIsLower(v.fields, name);
      value, fieldErrors := ValidateNode(d, s.additional.schema, v.fields[name], path + [Property(name)], fill);
    }
    FieldDone(FieldResults(d, s0, v, path, fill), v.fields, done, fields, errors, name);
    fields', errors' := fields[name := value], errors + fieldErrors;
  }

  /** Known properties first, present or filled in; then the fields no property names. */
  method ValidateFields(d: Definitions, s0: Schema, v: Json, path: seq<PathStep>, fill: bool)
    returns (value: Json, errors: set<Issue>)
    requires Fit(d, s0, fill) && v.Obj?
    ensures NodeResult(value, errors) == KidsNode(d, s0, v, path, fill)
    decreases Height(v), Turns(d, s0), s0, 2
  {
    var fields, knownErrors := ValidateKnown(d, s0, v, path, fill);
    value, errors := ValidateUnknown(d, s0, v, path, fill, fields, knownErrors);
  }

  method ValidateKnown(d: Definitions, s0: Schema, v: Json, path: seq<PathStep>, fill: bool)
    returns (fields: map<string, Json>, errors: set<Issue>)
    requires Fit(d, s0, fill) && v.Obj?
    ensures PartlyWritten(FieldResults(d, s0, v, path, fill), v.fields, Props(Resolve(d, s0)).Keys, fields, errors)
    decreases Height(v), Turns(d, s0), s0, 1
  {
    fields, errors := v.fields, {};
    var rest := Props(Resolve(d, s0)).Keys;
    ghost var done: set<string> := {};
    NoFieldsDone(FieldResults(d, s0, v, path, fill), v.fields);
    while rest != {}
      invariant done !! rest && done + rest == Props(Resolve(d, s0)).Keys
      invariant PartlyWritten(FieldResults(d, s0, v, path, fill), v.fields, done, fields, errors)
      decreases |rest|
    {
      var name :| name in rest;
      fields, errors := ValidateProperty(d, s0, v, name, path, fill, fields, errors, done);
      rest := rest - {name};
      done := done + {name};
    }
    assert done == Props(Resolve(d, s0)).Keys;
  }

  method ValidateUnknown(d: Definitions, s0: Schema, v: Json, path: seq<PathStep>, fill: bool,
                         known: map<string, Json>, knownErrors: set<Issue>)
    returns (value: Json, errors: set<Issue>)
    requires Fit(d, s0, fill) && v.Obj?
    requires PartlyWritten(FieldResults(d, s0, v, path, fill), v.fields, Props(Resolve(d, s0)).Keys, known, knownErrors)
    ensures NodeResult(value, errors) == KidsNode(d, s0, v, path, fill)
    decreases Height(v), Turns(d, s0), s0, 1
  {
    var fields := known;
    errors := knownErrors;
    var unknown := known.Keys - Props(Resolve(d, s0)).Keys;
    ghost var done := Props(Resolve(d, s0)).Keys;
    UnknownFields(d, s0, v, path, fill, known, knownErrors);
    while unknown != {}
      invariant unknown <= v.fields.Keys - Props(Resolve(d, s0)).Keys
      invariant FieldsAfter(Resolve(d, s0), v, fill) <= done + unknown
      invariant PartlyWritten(FieldResults(d, s0, v, path, fill), v.fields, done, fields, errors)
      decreases |unknown|
    {
      var name :| name in unknown;
      fields, errors := ValidateUnknownField(d, s0, v, name, path, fill, fields, errors, done);
      unknown := unknown - {name};
      done := done + {name};
    }
    AllFieldsDone(d, s0, v, path, fill, done, fields, errors);
    value := Obj(fields);
  }

  lemma UnknownFields(d: Definitions, s0: Schema, v: Json, path: seq<PathStep>, fill: bool, known: map<string, Json>, errors: set<Issue>)
    requires Fit(d, s0, fill) && v.Obj?
    requires PartlyWritten(FieldResults(d, s0, v, path, fill), v.fields, Props(Resolve(d, s0)).Keys, known, errors)
    ensures known.Keys - Props(Resolve(d, s0)).Keys == v.fields.Keys - Props(Resolve(d, s0)).Keys
    ensures FieldsAfter(Resolve(d, s0), v, fill) <= Props(Resolve(d, s0)).Keys + (v.fields.Keys - Props(Resolve(d, s0)).Keys)
  {
  }

  ghost function ItemErrors(d: Definitions, s0: Schema, v: Json, path: seq<PathStep>, fill: bool, n: nat): (r: set<Issue>)
    requires Fit(d, s0, fill) && v.Arr? && Resolve(d, s0).items.Some? && n <= |v.items|
  {
    set i: nat, e | 0 <= i < n && e in ItemNode(d, s0, v, i, path, fill).errors :: e
  }

  lemma OneMoreItem(d: Definitions, s0: Schema, v: Json, path: seq<PathStep>, fill: bool, n: nat)
    requires Fit(d, s0, fill) && v.Arr? && Resolve(d, s0).items.Some? && n < |v.items|
    ensures ItemErrors(d, s0, v, path, fill, n + 1)
         == ItemErrors(d, s0, v, path, fill, n) + ItemNode(d, s0, v, n, path, fill).errors
  {
  }

  /** Items are validated in order and written back in place. */
  method ValidateItems(d: Definitions, s0: Schema, v: Json, path: seq<PathStep>, fill: bool)
    returns (value: Json, errors: set<Issue>)
    requires Fit(d, s0, fill) && v.Arr? && Resolve(d, s0).items.Some?
    ensures NodeResult(value, errors) == KidsNode(d, s0, v, path, fill)
    decreases Height(v), Turns(d, s0), s0, 1
  {
    var items := v.items;
    errors := {};
    var i := 0;
    while i < |items|
      invariant i <= |items| == |v.items|
      invariant forall j: nat | i <= j < |items| :: items[j] == v.items[j]
      invariant forall j: nat | j < i :: items[j] == ItemNode(d, s0, v, j, path, fill).value
      invariant errors == ItemErrors(d, s0, v, path, fill, i)
    {
      FitItems(d, s0, fill);
      ItemIsLower(v.items, i);
      var item, itemErrors := ValidateNode(d, Resolve(d, s0).items.value, items[i], path + [Index(i)], fill);
      OneMoreItem(d, s0, v, path, fill, i);
      items := items[i := item];
      errors := errors + itemErrors;
      i := i + 1;
    }
    value := Arr(items);
    assert items == KidsNode(d, s0, v, path, fill).value.items;
  }

  /** Branches are tried in order, without defaults; the single match, if there is one, is then run with them. */
  method ValidateOneOf(d: Definitions, s0: Schema, v: Json, path: seq<PathStep>, fill: bool)
    returns (value: Json, errors: set<Issue>)
    requires Fit(d, s0, fill) && Resolve(d, s0).oneOf.Branches?
    ensures NodeResult(value, errors) == OneOfNode(d, s0, v, path, fill)
    decreases Height(v), Turns(d, s0), s0, 2
  {
    var options := Resolve(d, s0).oneOf.options;
    var matches: seq<nat> := [];
    var i := 0;
    while i < |options|
      invariant i <= |options| && ListsGoodBelow(d, s0, v, path, matches, i)
    {
      var isGood := TryBranch(d, s0, v, path, i);
      OneMoreBranch(d, s0, v, path, matches, i, isGood);
      if isGood {
        matches := matches + [i];
      }
      i := i + 1;
    }
    AllBranchesListed(d, s0, v, path, matches);
    if |matches| != 1 {
      return v, {Issue(path, "oneOf")};
    }
    if fill {
      value, errors := RunBranch(d, s0, v, path, matches[0]);
    } else {
      value, errors := v, {};
    }
  }

  method TryBranch(d: Definitions, s0: Schema, v: Json, path: seq<PathStep>, i: nat) returns (isGood: bool)
    requires Guarded(d) && Resolve(d, s0).oneOf.Branches? && i < |Resolve(d, s0).oneOf.options|
    ensures isGood <==> BranchNode(d, s0, v, i, path, false).errors == {}
    decreases Height(v), Turns(d, s0), s0, 0
  {
    BranchIsCloser(d, s0, i);
    var _, errors := ValidateNode(d, Resolve(d, s0).oneOf.options[i], v, path, false);
    isGood := errors == {};
  }

  method RunBranch(d: Definitions, s0: Schema, v: Json, path: seq<PathStep>, i: nat)
    returns (value: Json, errors: set<Issue>)
    requires Fit(d, s0, true) && Resolve(d, s0).oneOf.Branches? && i < |Resolve(d, s0).oneOf.options|
    ensures NodeResult(value, errors) == BranchNode(d, s0, v, i, path, true)
    decreases Height(v), Turns(d, s0), s0, 0
  {
    BranchIsCloser(d, s0, i);
    FitBranch(d, s0, i, true);
    value, errors := ValidateNode(d, Resolve(d, s0).oneOf.options[i], v, path, true);
  }

  ghost function GoodBelow(d: Definitions, s0: Schema, v: Json, path: seq<PathStep>, n: nat): (r: set<nat>)
    requires Guarded(d) && Resolve(d, s0).oneOf.Branches? && n <= |Resolve(d, s0).oneOf.options|
  {
    set i: nat | 0 <= i < n && BranchNode(d, s0, v, i, path, false).errors == {} :: i
  }

  /** `matches` lists the accepting branches among the first `n`, each once. */
  ghost predicate ListsGoodBelow(d: Definitions, s0: Schema, v: Json, path: seq<PathStep>, matches: seq<nat>, n: nat)
    requires Guarded(d) && Resolve(d, s0).oneOf.Branches? && n <= |Resolve(d, s0).oneOf.options|
  {
    |GoodBelow(d, s0, v, path, n)| == |matches| && forall m | m in matches :: m in GoodBelow(d, s0, v, path, n)
  }

  lemma GoodBelowNext(d: Definitions, s0: Schema, v: Json, path: seq<PathStep>, n: nat)
    requires Guarded(d) && Resolve(d, s0).oneOf.Branches? && n < |Resolve(d, s0).oneOf.options|
    ensures n !in GoodBelow(d, s0, v, path, n)
    ensures GoodBelow(d, s0, v, path, n + 1)
         == GoodBelow(d, s0, v, path, n) + if BranchNode(d, s0, v, n, path, false).errors == {} then {n} else {}
  {
  }

  lemma OneMoreBranch(d: Definitions, s0: Schema, v: Json, path: seq<PathStep>, matches: seq<nat>, n: nat, isGood: bool)
    requires Guarded(d) && Resolve(d, s0).oneOf.Branches? && n < |Resolve(d, s0).oneOf.options|
    requires ListsGoodBelow(d, s0, v, path, matches, n) && (isGood <==> BranchNode(d, s0, v, n, path, false).errors == {})
    ensures ListsGoodBelow(d, s0, v, path, if isGood then matches + [n] else matches, n + 1)
  {
    GoodBelowNext(d, s0, v, path, n);
    ListOneMore(GoodBelow(d, s0, v, path, n), matches, n);
  }

  lemma ListOneMore(good: set<nat>, matches: seq<nat>, n: nat)
    requires |good| == |matches| && (forall m | m in matches :: m in good) && n !in good
    ensures |good + {n}| == |matches + [n]| && (forall m | m in matches + [n] :: m in good + {n})
    ensures good + {} == good
  {
  }

  lemma AllBranchesListed(d: Definitions, s0: Schema, v: Json, path: seq<PathStep>, matches: seq<nat>)
    requires Guarded(d) && Resolve(d, s0).oneOf.Branches?
    requires ListsGoodBelow(d, s0, v, path, matches, |Resolve(d, s0).oneOf.options|)
    ensures |GoodBranches(d, s0, v, path)| == |matches|
    ensures |matches| == 1 ==> matches[0] == TheOnly(GoodBranches(d, s0, v, path)) && matches[0] < |Resolve(d, s0).oneOf.options|
  {
    assert GoodBelow(d, s0, v, path, |Resolve(d, s0).oneOf.options|) == GoodBranches(d, s0, v, path);
    if |matches| == 1 {
      assert matches[0] in GoodBranches(d, s0, v, path);
      assert matches[0] in {TheOnly(GoodBranches(d, s0, v, path))};
    }
  }

  method ValidateNode(d: Definitions, s0: Schema, input: Json, path: seq<PathStep>, fill: bool)
    returns (value: Json, errors: set<Issue>)
    requires Fit(d, s0, fill)
    ensures NodeResult(value, errors) == Node(d, s0, input, path, fill)
    decreases Height(input), Turns(d, s0), s0, 3
  {
    var s := Resolve(d, s0);
    value := input;
    if s.jsonType.Some? && !MatchesType(s.jsonType.value, value) {
      return value, {Issue(path, "type")};
    }
    errors := OwnIssues(s, value, path);
    var kidsErrors: set<Issue> := {};
    if value.Arr? && s.items.Some? {
      value, kidsErrors := ValidateItems(d, s0, value, path, fill);
    } else if value.Obj? {
      value, kidsErrors := ValidateFields(d, s0, value, path, fill);
    }
    errors := errors + kidsErrors;
    if s.oneOf.Branches? {
      var branchErrors;
      value, branchErrors := ValidateOneOf(d, s0, value, path, fill);
      errors := errors + branchErrors;
    }
  }
}
