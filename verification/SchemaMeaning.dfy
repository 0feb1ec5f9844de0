/** What a schema means to the caller of a tool, keyword by keyword (src/control/ToolInputValidator.ts): which values are
    accepted, which issues are reported, and what is filled in. */
module SchemaMeaning {
  import opened Basics
  import opened Json
  import opened ToolInputValidator

  // --------------------------------------------------------------- references

  /** `s` is what `s0` amounts to: itself, or the definition it refers to, each keyword of the definition standing exactly
      where `s0` has none of its own. */
  predicate Combines(d: Definitions, s0: Schema, s: Schema)
  {
    if s0.ref.ToDef? && s0.ref.token in d.schemas then
      var t := d.schemas[s0.ref.token];
      && s.ref == t.ref
      && (s0.jsonType.Some? ==> s.jsonType == s0.jsonType) && (s0.jsonType.None? ==> s.jsonType == t.jsonType)
      && (s0.choices.Some? ==> s.choices == s0.choices) && (s0.choices.None? ==> s.choices == t.choices)
      && (s0.minLength.Some? ==> s.minLength == s0.minLength) && (s0.minLength.None? ==> s.minLength == t.minLength)
      && (s0.minimum.Some? ==> s.minimum == s0.minimum) && (s0.minimum.None? ==> s.minimum == t.minimum)
      && (s0.maximum.Some? ==> s.maximum == s0.maximum) && (s0.maximum.None? ==> s.maximum == t.maximum)
      && (s0.minItems.Some? ==> s.minItems == s0.minItems) && (s0.minItems.None? ==> s.minItems == t.minItems)
      && (s0.items.Some? ==> s.items == s0.items) && (s0.items.None? ==> s.items == t.items)
      && (s0.properties.Properties? ==> s.properties == s0.properties) && (s0.properties.NoProperties? ==> s.properties == t.properties)
      && (s0.required.Some? ==> s.required == s0.required) && (s0.required.None? ==> s.required == t.required)
      && (!s0.additional.Unstated? ==> s.additional == s0.additional) && (s0.additional.Unstated? ==> s.additional == t.additional)
      && (s0.oneOf.Branches? ==> s.oneOf == s0.oneOf) && (s0.oneOf.NoBranches? ==> s.oneOf == t.oneOf)
      && (s0.dflt.Some? ==> s.dflt == s0.dflt) && (s0.dflt.None? ==> s.dflt == t.dflt)
    else s == s0
  }

  lemma ResolvingCombines(d: Definitions, s0: Schema)
    ensures Combines(d, s0, Resolve(d, s0))
  {
  }

  lemma CombinationIsResolved(d: Definitions, s0: Schema, s: Schema)
    requires Combines(d, s0, s)
    ensures s == Resolve(d, s0)
  {
  }

  // ----------------------------------------------------------------- acceptance

  predicate IsWhole(x: real, n: int)
  {
    x == n as real
  }

  ghost predicate OfType(s: Schema, v: Json)
  {
    && (s.jsonType == Some(ObjectType) ==> v.Obj?)
    && (s.jsonType == Some(ArrayType) ==> v.Arr?)
    && (s.jsonType == Some(StringType) ==> v.Str?)
    && (s.jsonType == Some(NumberType) ==> v.Num?)
    && (s.jsonType == Some(IntegerType) ==> v.Num? && exists n: int :: IsWhole(v.number, n))
    && (s.jsonType == Some(BooleanType) ==> v.Bool?)
    && (s.jsonType == Some(NullType) ==> v.Null?)
  }

  predicate Enumerated(s: Schema, v: Json)
  {
    s.choices.Some? ==> v in s.choices.value
  }

  predicate LongEnough(s: Schema, v: Json)
  {
    && (v.Str? && s.minLength.Some? ==> s.minLength.value <= |v.text|)
    && (v.Arr? && s.minItems.Some? ==> s.minItems.value <= |v.items|)
  }

  predicate Bounded(s: Schema, v: Json)
  {
    && (v.Num? && s.minimum.Some? ==> s.minimum.value <= v.number)
    && (v.Num? && s.maximum.Some? ==> v.number <= s.maximum.value)
  }

  predicate HasRequired(s: Schema, v: Json)
  {
    v.Obj? && s.required.Some? ==> forall i | 0 <= i < |s.required.value| :: s.required.value[i] in v.fields
  }

  predicate Named(s: Schema, name: string)
  {
    s.properties.Properties? && name in s.properties.schemas
  }

  /** A field that is present: by its own schema when it is named, and otherwise by what is said of additional properties. */
  predicate FieldTaken(d: Definitions, s: Schema, name: string, v: Json)
    requires Guarded(d)
  {
    && (Named(s, name) ==> Matches(d, s.properties.schemas[name], v))
    && (!Named(s, name) ==> !s.additional.Forbid? && (s.additional.Each? ==> Matches(d, s.additional.schema, v)))
  }

  ghost predicate OneBranchTakes(d: Definitions, branches: seq<Schema>, v: Json)
    requires Guarded(d)
  {
    exists i :: 0 <= i < |branches| && Matches(d, branches[i], v) && forall j | 0 <= j < |branches| && j != i :: !Matches(d, branches[j], v)
  }

  ghost predicate Taken(d: Definitions, s: Schema, v: Json)
    requires Guarded(d)
  {
    && OfType(s, v) && Enumerated(s, v) && LongEnough(s, v) && Bounded(s, v) && HasRequired(s, v)
    && (v.Arr? && s.items.Some? ==> forall i | 0 <= i < |v.items| :: Matches(d, s.items.value, v.items[i]))
    && (v.Obj? ==> forall name | name in v.fields :: FieldTaken(d, s, name, v.fields[name]))
    && (s.oneOf.Branches? ==> OneBranchTakes(d, s.oneOf.options, v))
  }

  lemma TypeMeans(s: Schema, v: Json)
    ensures TypeOk(s, v) <==> OfType(s, v)
  {
    if v.Num? {
      if n: int :| IsWhole(v.number, n) {
        assert v.number.Floor == n;
      }
      assert v.number.Floor as real == v.number ==> IsWhole(v.number, v.number.Floor);
    }
  }

  lemma EnumMeans(s: Schema, v: Json)
    ensures EnumOk(s, v) <==> Enumerated(s, v)
  {
    if s.choices.Some? {
      forall i | 0 <= i < |s.choices.value| ensures JsonEqual(s.choices.value[i], v) <==> s.choices.value[i] == v {
        JsonEqualIsEquality(s.choices.value[i], v);
      }
    }
  }

  lemma OwnMeans(s: Schema, v: Json)
    ensures OwnOk(s, v) <==> OfType(s, v) && Enumerated(s, v) && LongEnough(s, v) && Bounded(s, v) && HasRequired(s, v)
  {
    TypeMeans(s, v);
    EnumMeans(s, v);
    if v.Obj? && s.required.Some? {
      assert forall i | 0 <= i < |s.required.value| :: s.required.value[i] in s.required.value;
    }
  }

  lemma KidsMean(d: Definitions, s0: Schema, v: Json)
    requires Guarded(d)
    ensures var s := Resolve(d, s0);
            KidsMatch(d, s0, v) <==>
              && (v.Arr? && s.items.Some? ==> forall i | 0 <= i < |v.items| :: Matches(d, s.items.value, v.items[i]))
              && (v.Obj? ==> forall name | name in v.fields :: FieldTaken(d, s, name, v.fields[name]))
  {
    var s := Resolve(d, s0);
    if v.Obj? {
      forall name | name in v.fields ensures FieldMatches(d, s0, v, name) <==> FieldTaken(d, s, name, v.fields[name]) {
      }
    }
  }

  ghost predicate OnlyAt(takes: seq<bool>, i: int)
  {
    0 <= i < |takes| && takes[i] && forall j | 0 <= j < |takes| && j != i :: !takes[j]
  }

  lemma OneMeans(good: set<nat>, takes: seq<bool>)
    requires forall i: nat :: i in good <==> i < |takes| && takes[i]
    ensures |good| == 1 <==> exists i :: OnlyAt(takes, i)
  {
    if |good| == 1 {
      var i := TheOnly(good);
      assert OnlyAt(takes, i);
    }
    if i :| OnlyAt(takes, i) {
      assert good == {i};
    }
  }

  ghost function Takes(d: Definitions, branches: seq<Schema>, v: Json): (r: seq<bool>)
    requires Guarded(d)
    ensures |r| == |branches| && forall i | 0 <= i < |r| :: r[i] == Matches(d, branches[i], v)
  {
    seq(|branches|, i requires 0 <= i < |branches| => Matches(d, branches[i], v))
  }

  lemma OneTakes(d: Definitions, branches: seq<Schema>, v: Json)
    requires Guarded(d)
    ensures OneBranchTakes(d, branches, v) <==> exists i :: OnlyAt(Takes(d, branches, v), i)
  {
    if i :| OnlyAt(Takes(d, branches, v), i) {
      assert Matches(d, branches[i], v) && forall j | 0 <= j < |branches| && j != i :: !Matches(d, branches[j], v);
    }
    if i :| 0 <= i < |branches| && Matches(d, branches[i], v) && forall j | 0 <= j < |branches| && j != i :: !Matches(d, branches[j], v) {
      assert OnlyAt(Takes(d, branches, v), i);
    }
  }

  lemma OneOfMeans(d: Definitions, s0: Schema, v: Json)
    requires Guarded(d) && Resolve(d, s0).oneOf.Branches?
    ensures |MatchingBranches(d, s0, v)| == 1 <==> OneBranchTakes(d, Resolve(d, s0).oneOf.options, v)
  {
    var options := Resolve(d, s0).oneOf.options;
    OneTakes(d, options, v);
    forall i: nat ensures i in MatchingBranches(d, s0, v) <==> i < |options| && Takes(d, options, v)[i] {
      if i < |options| {
        assert BranchMatches(d, s0, v, i) <==> Matches(d, options[i], v);
      }
    }
    OneMeans(MatchingBranches(d, s0, v), Takes(d, options, v));
  }

  /** A value is accepted exactly when every keyword of the schema, references followed, takes it: this is all that a schema
      asks, and `Node` reports nothing without filling exactly then. */
  lemma AcceptanceMeans(d: Definitions, s0: Schema, s: Schema, v: Json, path: seq<PathStep>)
    requires Guarded(d) && Combines(d, s0, s)
    ensures Matches(d, s0, v) <==> Taken(d, s, v)
    ensures Node(d, s0, v, path, false).errors == {} <==> Taken(d, s, v)
  {
    CombinationIsResolved(d, s0, s);
    OwnMeans(s, v);
    KidsMean(d, s0, v);
    if s.oneOf.Branches? {
      OneOfMeans(d, s0, v);
    }
    CheckersAgree(d, s0, v, path);
  }

  // --------------------------------------------------------------------- issues

  /** A field that may not be there is reported as such, at its own path, and in no other way. */
  lemma BannedFieldIsReported(d: Definitions, s0: Schema, s: Schema, v: Json, name: string, path: seq<PathStep>, fill: bool)
    requires Fit(d, s0, fill) && Combines(d, s0, s) && v.Obj? && name in v.fields && !Named(s, name) && s.additional.Forbid?
    ensures FieldNode(d, s0, v, name, path, fill) == NodeResult(v.fields[name], {Issue(path + [Property(name)], "additionalProperties")})
    ensures OfType(s, v) ==> Issue(path + [Property(name)], "additionalProperties") in Node(d, s0, v, path, fill).errors
  {
    CombinationIsResolved(d, s0, s);
    TypeMeans(s, v);
    var kids := KidsNode(d, s0, v, path, fill);
    assert name in FieldsAfter(s, v, fill);
    assert FieldNode(d, s0, v, name, path, fill).errors <= kids.errors;
  }

  /** A value of the wrong type is reported as that alone. */
  lemma WrongTypeIsReported(d: Definitions, s0: Schema, s: Schema, v: Json, path: seq<PathStep>, fill: bool)
    requires Fit(d, s0, fill) && Combines(d, s0, s) && !OfType(s, v)
    ensures Node(d, s0, v, path, fill) == NodeResult(v, {Issue(path, "type")})
  {
    CombinationIsResolved(d, s0, s);
    TypeMeans(s, v);
  }

  ghost predicate OwnIssue(s: Schema, v: Json, path: seq<PathStep>, e: Issue)
  {
    || (e == Issue(path, "enum") && !Enumerated(s, v))
    || (e == Issue(path, "minLength") && v.Str? && s.minLength.Some? && |v.text| < s.minLength.value)
    || (e == Issue(path, "minimum") && v.Num? && s.minimum.Some? && v.number < s.minimum.value)
    || (e == Issue(path, "maximum") && v.Num? && s.maximum.Some? && v.number > s.maximum.value)
    || (e == Issue(path, "minItems") && v.Arr? && s.minItems.Some? && |v.items| < s.minItems.value)
    || (v.Obj? && s.required.Some? && exists name :: name in s.required.value && name !in v.fields && e == Issue(path + [Property(name)], "required"))
  }

  /** What is reported of the value itself is exactly the keywords it fails, each by its name, a missing field at its path. */
  lemma OwnIssuesMean(s: Schema, v: Json, path: seq<PathStep>, e: Issue)
    ensures e in OwnIssues(s, v, path) <==> OwnIssue(s, v, path, e)
  {
    EnumMeans(s, v);
  }

  /** The issue is one of the value under this schema. */
  ghost predicate Reported(d: Definitions, s: Schema, v: Json, path: seq<PathStep>, fill: bool, e: Issue)
  {
    Fit(d, s, fill) && e in Node(d, s, v, path, fill).errors
  }

  /** The value becomes this one under the schema. */
  ghost predicate Becomes(d: Definitions, s: Schema, v: Json, path: seq<PathStep>, fill: bool, w: Json)
  {
    Fit(d, s, fill) && w == Node(d, s, v, path, fill).value
  }

  ghost predicate ItemIssue(d: Definitions, s: Schema, v: Json, i: nat, path: seq<PathStep>, fill: bool, e: Issue)
  {
    v.Arr? && s.items.Some? && i < |v.items| && Reported(d, s.items.value, v.items[i], path + [Index(i)], fill, e)
  }

  /** One field: under its own schema when it is named, banned or under the schema of additional properties when not, and
      at its default when it is absent and defaults are filled in. */
  ghost predicate FieldIssue(d: Definitions, s: Schema, v: Json, name: string, path: seq<PathStep>, fill: bool, e: Issue)
  {
    var at := path + [Property(name)];
    && v.Obj?
    && if name in v.fields then
         if Named(s, name) then Reported(d, s.properties.schemas[name], v.fields[name], at, fill, e)
         else
           || (s.additional.Forbid? && e == Issue(at, "additionalProperties"))
           || (s.additional.Each? && Reported(d, s.additional.schema, v.fields[name], at, fill, e))
       else
         && fill && Named(s, name) && s.properties.schemas[name].dflt.Some?
         && Reported(d, s.properties.schemas[name], s.properties.schemas[name].dflt.value, at, true, e)
  }

  ghost predicate FieldBecomes(d: Definitions, s: Schema, v: Json, name: string, path: seq<PathStep>, fill: bool, w: Json)
    requires v.Obj? && name in v.fields
  {
    if Named(s, name) then Becomes(d, s.properties.schemas[name], v.fields[name], path + [Property(name)], fill, w)
    else if s.additional.Each? then Becomes(d, s.additional.schema, v.fields[name], path + [Property(name)], fill, w)
    else w == v.fields[name]
  }

  ghost predicate DefaultBecomes(d: Definitions, s: Schema, name: string, path: seq<PathStep>, w: Json)
  {
    && Named(s, name) && s.properties.schemas[name].dflt.Some?
    && Becomes(d, s.properties.schemas[name], s.properties.schemas[name].dflt.value, path + [Property(name)], true, w)
  }

  /** The value once its items and fields are done: each is what it becomes, and absent fields stand at what their defaults
      become when defaults are filled in. */
  ghost predicate InsideDone(d: Definitions, s: Schema, v: Json, path: seq<PathStep>, fill: bool, w: Json)
  {
    if v.Arr? && s.items.Some? then
      && w.Arr? && |w.items| == |v.items|
      && forall i | 0 <= i < |v.items| :: Becomes(d, s.items.value, v.items[i], path + [Index(i)], fill, w.items[i])
    else if v.Obj? then
      && w.Obj?
      && (forall name | name in v.fields :: name in w.fields && FieldBecomes(d, s, v, name, path, fill, w.fields[name]))
      && (forall name | name in w.fields && name !in v.fields :: fill && DefaultBecomes(d, s, name, path, w.fields[name]))
      && (fill ==> forall name | Named(s, name) && s.properties.schemas[name].dflt.Some? :: name in w.fields)
    else w == v
  }

  /** The branches, tried on the value whose inside is done: that not exactly one takes it, or with defaults what the one
      that takes it reports. */
  ghost predicate BranchIssue(d: Definitions, s: Schema, w: Json, path: seq<PathStep>, fill: bool, e: Issue)
    requires Guarded(d)
  {
    && s.oneOf.Branches?
    && if !OneBranchTakes(d, s.oneOf.options, w) then e == Issue(path, "oneOf")
       else fill && exists i :: 0 <= i < |s.oneOf.options| && Matches(d, s.oneOf.options[i], w) && Reported(d, s.oneOf.options[i], w, path, true, e)
  }

  lemma ItemsReport(d: Definitions, s0: Schema, v: Json, path: seq<PathStep>, fill: bool, e: Issue)
    requires Fit(d, s0, fill) && v.Arr? && Resolve(d, s0).items.Some?
    ensures e in KidsNode(d, s0, v, path, fill).errors <==> exists i: nat :: ItemIssue(d, Resolve(d, s0), v, i, path, fill, e)
    ensures InsideDone(d, Resolve(d, s0), v, path, fill, KidsNode(d, s0, v, path, fill).value)
  {
    FitItems(d, s0, fill);
    var s := Resolve(d, s0);
    forall i: nat | i < |v.items| ensures e in ItemNode(d, s0, v, i, path, fill).errors <==> ItemIssue(d, s, v, i, path, fill, e) {
    }
  }

  /** A field that is there, or filled in. */
  lemma FieldReports(d: Definitions, s0: Schema, v: Json, name: string, path: seq<PathStep>, fill: bool, e: Issue)
    requires Fit(d, s0, fill) && v.Obj? && name in FieldsAfter(Resolve(d, s0), v, fill)
    ensures e in FieldNode(d, s0, v, name, path, fill).errors <==> FieldIssue(d, Resolve(d, s0), v, name, path, fill, e)
    ensures name in v.fields ==> FieldBecomes(d, Resolve(d, s0), v, name, path, fill, FieldNode(d, s0, v, name, path, fill).value)
    ensures name !in v.fields ==> DefaultBecomes(d, Resolve(d, s0), name, path, FieldNode(d, s0, v, name, path, fill).value)
  {
    if name !in v.fields {
      FitDefault(d, s0, name);
    } else if RuleFor(Resolve(d, s0), name).Governed? {
      FitField(d, s0, name, fill);
    }
  }

  lemma FieldsReport(d: Definitions, s0: Schema, v: Json, path: seq<PathStep>, fill: bool, e: Issue)
    requires Fit(d, s0, fill) && v.Obj?
    ensures e in KidsNode(d, s0, v, path, fill).errors <==> exists name :: FieldIssue(d, Resolve(d, s0), v, name, path, fill, e)
    ensures InsideDone(d, Resolve(d, s0), v, path, fill, KidsNode(d, s0, v, path, fill).value)
  {
    var s := Resolve(d, s0);
    forall name | name in FieldsAfter(s, v, fill)
      ensures e in FieldNode(d, s0, v, name, path, fill).errors <==> FieldIssue(d, s, v, name, path, fill, e)
      ensures name in v.fields ==> FieldBecomes(d, s, v, name, path, fill, FieldNode(d, s0, v, name, path, fill).value)
      ensures name !in v.fields ==> DefaultBecomes(d, s, name, path, FieldNode(d, s0, v, name, path, fill).value)
    {
      FieldReports(d, s0, v, name, path, fill, e);
    }
    forall name | FieldIssue(d, s, v, name, path, fill, e) ensures name in FieldsAfter(s, v, fill) {
    }
  }

  lemma GoodBranchMatches(d: Definitions, s0: Schema, w: Json, path: seq<PathStep>)
    requires Guarded(d) && Resolve(d, s0).oneOf.Branches?
    ensures |GoodBranches(d, s0, w, path)| == 1 <==> OneBranchTakes(d, Resolve(d, s0).oneOf.options, w)
    ensures forall i: nat :: i in GoodBranches(d, s0, w, path) <==> i < |Resolve(d, s0).oneOf.options| && Matches(d, Resolve(d, s0).oneOf.options[i], w)
  {
    var options := Resolve(d, s0).oneOf.options;
    forall i: nat | i < |options| ensures BranchNode(d, s0, w, i, path, false).errors == {} <==> Matches(d, options[i], w) {
      CheckersAgree(d, options[i], w, path);
    }
    OneTakes(d, options, w);
    OneMeans(GoodBranches(d, s0, w, path), Takes(d, options, w));
  }

  lemma BranchesReport(d: Definitions, s0: Schema, w: Json, path: seq<PathStep>, fill: bool, e: Issue)
    requires Fit(d, s0, fill) && Resolve(d, s0).oneOf.Branches?
    ensures e in OneOfNode(d, s0, w, path, fill).errors <==> BranchIssue(d, Resolve(d, s0), w, path, fill, e)
  {
    GoodBranchMatches(d, s0, w, path);
    var options, good := Resolve(d, s0).oneOf.options, GoodBranches(d, s0, w, path);
    if fill && |good| == 1 {
      var only := TheOnly(good);
      FitBranch(d, s0, only, true);
      assert forall i | 0 <= i < |options| && Matches(d, options[i], w) :: i == only;
    }
  }

  /** Everything that is reported of a value: its own keywords, what its items and fields report at their own paths, and what
      is said of its branches. `inside` is the value once its items and fields are done. */
  lemma IssuesMean(d: Definitions, s0: Schema, s: Schema, v: Json, path: seq<PathStep>, fill: bool, e: Issue) returns (inside: Json)
    requires Fit(d, s0, fill) && Combines(d, s0, s) && OfType(s, v)
    ensures InsideDone(d, s, v, path, fill, inside)
    ensures e in Node(d, s0, v, path, fill).errors <==>
              || OwnIssue(s, v, path, e)
              || (exists i: nat :: ItemIssue(d, s, v, i, path, fill, e))
              || (exists name :: FieldIssue(d, s, v, name, path, fill, e))
              || BranchIssue(d, s, inside, path, fill, e)
  {
    CombinationIsResolved(d, s0, s);
    TypeMeans(s, v);
    OwnIssuesMean(s, v, path, e);
    inside := KidsNode(d, s0, v, path, fill).value;
    if v.Arr? && s.items.Some? {
      ItemsReport(d, s0, v, path, fill, e);
    } else if v.Obj? {
      FieldsReport(d, s0, v, path, fill, e);
    }
    if s.oneOf.Branches? {
      BranchesReport(d, s0, inside, path, fill, e);
    }
  }

  // --------------------------------------------------------------------- filling

  /** What an accepted input becomes: a scalar itself, a list of what its items become, and an object of what its own fields
      become and of the absent named ones that have a default, at that default. */
  lemma DefaultsAreFilledIn(d: Definitions, s0: Schema, s: Schema, v: Json, path: seq<PathStep>)
    requires Shaped(d, s0) && Combines(d, s0, s) && Node(d, s0, v, path, true).errors == {}
    ensures var w := Node(d, s0, v, path, true).value;
            && InsideDone(d, s, v, path, true, w)
            && (IsScalar(v) ==> w == v)
            && (v.Arr? ==> w.Arr? && |w.items| == |v.items|)
            && (v.Obj? ==>
                  && w.Obj?
                  && (forall name :: name in w.fields <==>
                        name in v.fields || (Named(s, name) && s.properties.schemas[name].dflt.Some?))
                  && (forall name | name in w.fields && name !in v.fields :: w.fields[name] == s.properties.schemas[name].dflt.value))
  {
    CombinationIsResolved(d, s0, s);
    TypeMeans(s, v);
    var kids := KidsNode(d, s0, v, path, true);
    if s.oneOf.Branches? {
      OneOfKeepsValue(d, s0, kids.value, path);
    }
    if v.Arr? && s.items.Some? {
      ItemsReport(d, s0, v, path, true, Issue(path, "type"));
    } else if v.Obj? {
      FieldsReport(d, s0, v, path, true, Issue(path, "type"));
    }
    if v.Obj? {
      forall name | name in FieldsAfter(s, v, true) && name !in v.fields
        ensures kids.value.fields[name] == Props(s)[name].dflt.value
      {
        DefaultStays(d, s0, v, name, path);
      }
    }
  }

  lemma DefaultStays(d: Definitions, s0: Schema, v: Json, name: string, path: seq<PathStep>)
    requires Shaped(d, s0) && v.Obj? && name in FieldsAfter(Resolve(d, s0), v, true) && name !in v.fields
    requires KidsNode(d, s0, v, path, true).errors == {}
    ensures name in Props(Resolve(d, s0)) && Props(Resolve(d, s0))[name].dflt.Some?
    ensures FieldNode(d, s0, v, name, path, true).value == Props(Resolve(d, s0))[name].dflt.value
  {
    var child := Props(Resolve(d, s0))[name];
    NoErrorInField(d, s0, v, name, path);
    assert RuleFor(Resolve(d, s0), name) == Governed(child);
    ShapedField(d, s0, name);
    FitDefault(d, s0, name);
    ScalarStays(d, child, child.dflt.value, path + [Property(name)]);
  }
}
