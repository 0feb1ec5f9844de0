/** Renumbering of session-specific values in recorded transcripts (src/evidence/DifferentialEvidenceSanitizer.ts). */
module EvidenceSanitizer {
  import opened Basics

  datatype Category = PathToken | PortToken | PidToken | TimestampToken | IdToken

  function Name(c: Category): (r: string)
    ensures '-' !in r
  {
    match c
    case PathToken => "path"
    case PortToken => "port"
    case PidToken => "pid"
    case TimestampToken => "timestamp"
    case IdToken => "id"
  }

  datatype Field = Field(key: string, value: Value)

  datatype Value =
    | Null
    | Flag(flag: bool)
    | Number(x: real)
    | Text(text: string)
    | List(items: seq<Value>)
    | Record(fields: seq<Field>)

  /** What the patterns, key sets and conversions of the source say; the models hold for any. */
  datatype Rules = Rules(
    isPort: string -> bool,
    isPid: string -> bool,
    isId: string -> bool,
    isTimestamp: string -> bool,
    isAbsolute: string -> bool,
    isHighEntropy: string -> bool,
    isForbidden: string -> bool,
    isAllowed: string -> bool,
    isDynamic: string -> bool,
    show: real -> string)

  // ---------------------------------------------------------------------- tokens

  function TokenText(c: Category, n: nat): (r: string)
  {
    "<" + Name(c) + "-" + Decimal(n) + ">"
  }

  predicate AllDigits(s: string)
  {
    s != [] && forall i | 0 <= i < |s| :: IsDigit(s[i])
  }

  predicate IsTokenOf(name: string, text: string)
  {
    |text| > |name| + 3 && text[..|name| + 2] == "<" + name + "-" && text[|text| - 1] == '>'
    && AllDigits(text[|name| + 2..|text| - 1])
  }

  predicate IsToken(text: string)
  {
    exists c: Category :: IsTokenOf(Name(c), text)
  }

  lemma TokensAreTokens(c: Category, n: nat)
    ensures IsToken(TokenText(c, n))
  {
    var text, name := TokenText(c, n), Name(c);
    assert text[..|name| + 2] == "<" + name + "-";
    assert text[|name| + 2..|text| - 1] == Decimal(n);
    assert IsTokenOf(name, text);
  }

  lemma TokensAreDistinct(c: Category, m: nat, d: Category, n: nat)
    requires TokenText(c, m) == TokenText(d, n)
    ensures c == d && m == n
  {
    TokenParts(c, m);
    TokenParts(d, n);
    PartsAreUnambiguous(Name(c), Decimal(m) + ">", Name(d), Decimal(n) + ">", '-');
    NamesAreDistinct(c, d);
    DropLast(Decimal(m), Decimal(n));
    DecimalIsInjective(m, n);
  }

  lemma TokenParts(c: Category, n: nat)
    ensures TokenText(c, n)[1..] == Name(c) + ['-'] + (Decimal(n) + ">")
  {
  }

  lemma DropLast(a: string, b: string)
    requires a + ">" == b + ">"
    ensures a == b
  {
    assert |a + ">"| == |b + ">"|;
    assert a == (a + ">")[..|a|] && b == (b + ">")[..|b|];
  }

  lemma NamesAreDistinct(c: Category, d: Category)
    requires Name(c) == Name(d)
    ensures c == d
  {
    assert Name(c)[1] == Name(d)[1];
    assert |Name(c)| == 4 ==> Name(c)[1] == 'a' || Name(c)[1] == 'o';
  }

  /** Numbers given out so far, by category and value, and how many per category. */
  datatype TokenState = TokenState(values: map<(Category, string), nat>, counts: map<Category, nat>)

  const NO_TOKENS: TokenState := TokenState(map[], map[])

  function CountOf(state: TokenState, c: Category): (r: nat)
  {
    if c in state.counts then state.counts[c] else 0
  }

  function Assigned(state: TokenState, c: Category, text: string): (r: TokenState)
  {
    if (c, text) in state.values then state
    else TokenState(state.values[(c, text) := CountOf(state, c) + 1], state.counts[c := CountOf(state, c) + 1])
  }

  // -------------------------------------------------------------------- sanitizing

  /** What happens to a scalar under a key. */
  datatype Treatment = Keep | Tokenise(c: Category, text: string) | Refuse

  predicate KeyIs(test: string -> bool, key: Option<string>)
  {
    key.Some? && key.value != "" && test(key.value)
  }

  function TreatmentOf(rules: Rules, v: Value, key: Option<string>): (r: Treatment)
  {
    if v.Number? then
      if KeyIs(rules.isPort, key) then Tokenise(PortToken, rules.show(v.x))
      else if KeyIs(rules.isPid, key) then Tokenise(PidToken, rules.show(v.x))
      else if KeyIs(rules.isId, key) then Tokenise(IdToken, rules.show(v.x))
      else Keep
    else if v.Text? then
      if IsToken(v.text) then Keep
      else if KeyIs(rules.isTimestamp, key) then Tokenise(TimestampToken, v.text)
      else if KeyIs(rules.isId, key) then Tokenise(IdToken, v.text)
      else if rules.isAbsolute(v.text) then Tokenise(PathToken, v.text)
      else if rules.isHighEntropy(v.text) then Refuse
      else Keep
    else Keep
  }

  datatype Outcome = Clean(value: Value, state: TokenState) | Refused

  datatype KidsOutcome = KidsClean(values: seq<Value>, state: TokenState) | KidsRefused

  predicate IsContainer(v: Value)
  {
    v.List? || v.Record?
  }

  function Size(v: Value): (r: nat)
    requires IsContainer(v)
  {
    if v.List? then |v.items| else |v.fields|
  }

  function Kid(v: Value, i: nat): (r: Value)
    requires IsContainer(v) && i < Size(v)
    ensures r < v
  {
    if v.List? then v.items[i]
    else
      assert v.fields[i].value < v.fields[i];
      v.fields[i].value
  }

  function KidKey(v: Value, i: nat): (r: Option<string>)
    requires IsContainer(v) && i < Size(v)
  {
    if v.List? then None else Some(v.fields[i].key)
  }

  function WithKids(v: Value, kids: seq<Value>): (r: Value)
    requires IsContainer(v) && |kids| == Size(v)
  {
    if v.List? then List(kids)
    else Record(seq(|kids|, i requires 0 <= i < |kids| => Field(v.fields[i].key, kids[i])))
  }

  /** Whether the field may occur at this place. */
  predicate KidAllowed(rules: Rules, v: Value, key: Option<string>, i: nat)
    requires IsContainer(v) && i < Size(v)
  {
    v.Record? ==>
      && !rules.isForbidden(v.fields[i].key)
      && ((key.Some? && rules.isDynamic(key.value)) || rules.isAllowed(v.fields[i].key))
  }

  function Sanitize(rules: Rules, v: Value, key: Option<string>, state: TokenState): (r: Outcome)
    decreases v, 1, 0
  {
    if IsContainer(v) then
      var kids := SanitizeFrom(rules, v, key, 0, state);
      if kids.KidsRefused? then Refused else Clean(WithKids(v, kids.values), kids.state)
    else
      match TreatmentOf(rules, v, key)
      case Keep => Clean(v, state)
      case Refuse => Refused
      case Tokenise(c, text) =>
        var after := Assigned(state, c, text);
        Clean(Text(TokenText(c, after.values[(c, text)])), after)
  }

  function AfterFirst(value: Value, rest: KidsOutcome): (r: KidsOutcome)
  {
    if rest.KidsRefused? then KidsRefused else KidsClean([value] + rest.values, rest.state)
  }

  function SanitizeFrom(rules: Rules, v: Value, key: Option<string>, i: nat, state: TokenState): (r: KidsOutcome)
    requires IsContainer(v) && i <= Size(v)
    ensures r.KidsClean? ==> |r.values| == Size(v) - i
    decreases v, 0, Size(v) - i
  {
    if i == Size(v) then KidsClean([], state)
    else if !KidAllowed(rules, v, key, i) then KidsRefused
    else
      var first := Sanitize(rules, Kid(v, i), KidKey(v, i), state);
      if first.Refused? then KidsRefused
      else
        var rest := SanitizeFrom(rules, v, key, i + 1, first.state);
        if rest.KidsRefused? then KidsRefused else KidsClean([first.value] + rest.values, rest.state)
  }

  // ---------------------------------------------------------------------- idempotence

  /** Sanitizing again, from the given state, keeps the value and the state. */
  predicate Stable(rules: Rules, v: Value, key: Option<string>, again: TokenState)
  {
    Sanitize(rules, v, key, again) == Clean(v, again)
  }

  lemma SameKids(v: Value, kids: seq<Value>)
    requires IsContainer(v) && |kids| == Size(v)
    ensures WithKids(WithKids(v, kids), kids) == WithKids(v, kids)
  {
  }

  /** Position `i` of a container rebuilt over other values. */
  lemma RebuiltKid(rules: Rules, v: Value, key: Option<string>, kids: seq<Value>, i: nat)
    requires IsContainer(v) && |kids| == Size(v) && i < Size(v)
    ensures var w := WithKids(v, kids);
            && IsContainer(w) && Size(w) == Size(v) && Kid(w, i) == kids[i] && KidKey(w, i) == KidKey(v, i)
            && (KidAllowed(rules, w, key, i) <==> KidAllowed(rules, v, key, i))
  {
  }

  lemma {:induction false} KidsComeOutStable(rules: Rules, v: Value, key: Option<string>, i: nat, state: TokenState,
                                             all: seq<Value>, again: TokenState)
    requires IsContainer(v) && i <= Size(v) == |all| && SanitizeFrom(rules, v, key, i, state).KidsClean?
    requires all[i..] == SanitizeFrom(rules, v, key, i, state).values
    ensures SanitizeFrom(rules, WithKids(v, all), key, i, again) == KidsClean(all[i..], again)
    decreases v, 0, Size(v) - i
  {
    var w := WithKids(v, all);
    if i < Size(v) {
      var first := Sanitize(rules, Kid(v, i), KidKey(v, i), state);
      FromUnfolds(rules, v, key, i, state);
      TailAfter(all, i, first.value, SanitizeFrom(rules, v, key, i + 1, first.state).values);
      ComesOutStable(rules, Kid(v, i), KidKey(v, i), state, again);
      KidsComeOutStable(rules, v, key, i + 1, first.state, all, again);
      RebuiltKid(rules, v, key, all, i);
      FromUnfolds(rules, w, key, i, again);
    }
  }

  lemma TailAfter(all: seq<Value>, i: nat, first: Value, rest: seq<Value>)
    requires i < |all| && all[i..] == [first] + rest
    ensures all[i] == first && all[i + 1..] == rest
  {
    assert all[i..][0] == first && all[i..][1..] == rest;
  }

  /** Whatever comes out of the sanitizer goes through it unchanged, assigning no token. */
  lemma {:induction false} ComesOutStable(rules: Rules, v: Value, key: Option<string>, state: TokenState, again: TokenState)
    requires Sanitize(rules, v, key, state).Clean?
    ensures Stable(rules, Sanitize(rules, v, key, state).value, key, again)
    decreases v, 1, 0
  {
    if IsContainer(v) {
      var kids := SanitizeFrom(rules, v, key, 0, state).values;
      assert kids[0..] == kids;
      KidsComeOutStable(rules, v, key, 0, state, kids, again);
      SameKids(v, kids);
    } else {
      var t := TreatmentOf(rules, v, key);
      if t.Tokenise? {
        TokensAreTokens(t.c, Assigned(state, t.c, t.text).values[(t.c, t.text)]);
      }
    }
  }

  // ------------------------------------------------------- numbering by first occurrence

  /** The values to be tokenised, in the order they are met. */
  function Occurrences(rules: Rules, v: Value, key: Option<string>): (r: seq<(Category, string)>)
    decreases v, 1, 0
  {
    if IsContainer(v) then OccurrencesFrom(rules, v, 0)
    else
      var t := TreatmentOf(rules, v, key);
      if t.Tokenise? then [(t.c, t.text)] else []
  }

  function OccurrencesFrom(rules: Rules, v: Value, i: nat): (r: seq<(Category, string)>)
    requires IsContainer(v) && i <= Size(v)
    decreases v, 0, Size(v) - i
  {
    if i == Size(v) then [] else Occurrences(rules, Kid(v, i), KidKey(v, i)) + OccurrencesFrom(rules, v, i + 1)
  }

  function AssignedAll(state: TokenState, met: seq<(Category, string)>): (r: TokenState)
    decreases |met|
  {
    if met == [] then state else AssignedAll(Assigned(state, met[0].0, met[0].1), met[1..])
  }

  /** The distinct values of a category in the order in which each is first met. */
  function FirstMet(met: seq<(Category, string)>, c: Category): (r: seq<string>)
  {
    if met == [] then []
    else
      var last, before := met[|met| - 1], FirstMet(met[..|met| - 1], c);
      if last.0 == c && last.1 !in before then before + [last.1] else before
  }

  ghost predicate NumberedAs(state: TokenState, c: Category, first: seq<string>)
  {
    && CountOf(state, c) == |first|
    && (forall text: string :: (c, text) in state.values <==> text in first)
    && (forall k | 0 <= k < |first| :: (c, first[k]) in state.values && state.values[(c, first[k])] == k + 1)
    && (forall j, k | 0 <= j < k < |first| :: first[j] != first[k])
  }

  ghost predicate NumberedByFirstMet(state: TokenState, met: seq<(Category, string)>)
  {
    forall c: Category :: NumberedAs(state, c, FirstMet(met, c))
  }

  lemma FirstMetGrows(met: seq<(Category, string)>, next: (Category, string), c: Category)
    ensures FirstMet(met + [next], c)
         == if next.0 == c && next.1 !in FirstMet(met, c) then FirstMet(met, c) + [next.1] else FirstMet(met, c)
  {
    assert (met + [next])[..|met|] == met;
  }

  /** A new value of the category takes the next number. */
  lemma NewValueIsNumbered(state: TokenState, c: Category, text: string, first: seq<string>)
    requires NumberedAs(state, c, first) && text !in first
    ensures NumberedAs(Assigned(state, c, text), c, first + [text])
  {
    var after := Assigned(state, c, text);
    forall other: string ensures (c, other) in after.values <==> other in first + [text] {
      assert (c, other) in state.values <==> other in first;
    }
  }

  /** A value of another category, or one met before, changes nothing here. */
  lemma OtherValueKeepsNumbers(state: TokenState, c: Category, next: (Category, string), first: seq<string>)
    requires NumberedAs(state, c, first) && (next.0 != c || next.1 in first)
    ensures NumberedAs(Assigned(state, next.0, next.1), c, first)
  {
  }

  lemma AssignKeepsNumbering(state: TokenState, met: seq<(Category, string)>, next: (Category, string), c: Category)
    requires NumberedAs(state, c, FirstMet(met, c))
    ensures NumberedAs(Assigned(state, next.0, next.1), c, FirstMet(met + [next], c))
  {
    FirstMetGrows(met, next, c);
    if next.0 == c && next.1 !in FirstMet(met, c) {
      NewValueIsNumbered(state, c, next.1, FirstMet(met, c));
    } else {
      OtherValueKeepsNumbers(state, c, next, FirstMet(met, c));
    }
  }

  lemma {:induction false} AssignAllNumbers(state: TokenState, before: seq<(Category, string)>, met: seq<(Category, string)>)
    requires NumberedByFirstMet(state, before)
    ensures NumberedByFirstMet(AssignedAll(state, met), before + met)
    decreases |met|
  {
    if met == [] {
      assert before + met == before;
    } else {
      var next := Assigned(state, met[0].0, met[0].1);
      forall c: Category ensures NumberedAs(next, c, FirstMet(before + [met[0]], c)) {
        assert NumberedAs(state, c, FirstMet(before, c));
        AssignKeepsNumbering(state, before, met[0], c);
      }
      AssignAllNumbers(next, before + [met[0]], met[1..]);
      assert before + [met[0]] + met[1..] == before + met;
    }
  }

  lemma {:induction false} AssignInParts(state: TokenState, a: seq<(Category, string)>, b: seq<(Category, string)>)
    ensures AssignedAll(state, a + b) == AssignedAll(AssignedAll(state, a), b)
    decreases |a|
  {
    if a == [] {
      assert a + b == b;
    } else {
      assert (a + b)[1..] == a[1..] + b;
      AssignInParts(Assigned(state, a[0].0, a[0].1), a[1..], b);
    }
  }

  /** Every tokenised scalar replaced by the token of its category and value. */
  function Replaced(rules: Rules, v: Value, key: Option<string>, values: map<(Category, string), nat>): (r: Value)
    requires Covers(values, Occurrences(rules, v, key))
    decreases v, 1, 0
  {
    if IsContainer(v) then WithKids(v, ReplacedFrom(rules, v, 0, values))
    else
      var t := TreatmentOf(rules, v, key);
      if t.Tokenise? then
        assert (t.c, t.text) == Occurrences(rules, v, key)[0];
        Text(TokenText(t.c, values[(t.c, t.text)]))
      else v
  }

  function ReplacedFrom(rules: Rules, v: Value, i: nat, values: map<(Category, string), nat>): (r: seq<Value>)
    requires IsContainer(v) && i <= Size(v) && Covers(values, OccurrencesFrom(rules, v, i))
    ensures |r| == Size(v) - i
    decreases v, 0, Size(v) - i
  {
    if i == Size(v) then []
    else
      CoversParts(values, Occurrences(rules, Kid(v, i), KidKey(v, i)), OccurrencesFrom(rules, v, i + 1));
      [Replaced(rules, Kid(v, i), KidKey(v, i), values)] + ReplacedFrom(rules, v, i + 1, values)
  }

  predicate Covers(values: map<(Category, string), nat>, met: seq<(Category, string)>)
  {
    forall i | 0 <= i < |met| :: met[i] in values
  }

  lemma CoversParts(values: map<(Category, string), nat>, a: seq<(Category, string)>, b: seq<(Category, string)>)
    requires Covers(values, a + b)
    ensures Covers(values, a) && Covers(values, b)
  {
    forall i | 0 <= i < |a| ensures a[i] in values {
      assert (a + b)[i] == a[i];
    }
    forall i | 0 <= i < |b| ensures b[i] in values {
      assert (a + b)[|a| + i] == b[i];
    }
  }

  /** Numbers once given out stay. */
  ghost predicate Extends(later: TokenState, state: TokenState)
  {
    forall p | p in state.values :: p in later.values && later.values[p] == state.values[p]
  }

  lemma {:induction false} AssigningExtends(state: TokenState, met: seq<(Category, string)>)
    ensures Extends(AssignedAll(state, met), state) && Covers(AssignedAll(state, met).values, met)
    decreases |met|
  {
    if met != [] {
      var next := Assigned(state, met[0].0, met[0].1);
      AssigningExtends(next, met[1..]);
      var last := AssignedAll(state, met);
      forall i | 0 <= i < |met| ensures met[i] in last.values {
        if i > 0 { assert met[1..][i - 1] == met[i]; }
      }
    }
  }

  /** The states the sanitizer goes through are those of assigning its occurrences in order. */
  lemma {:induction false} StateFollowsOccurrences(rules: Rules, v: Value, key: Option<string>, state: TokenState)
    requires Sanitize(rules, v, key, state).Clean?
    ensures Sanitize(rules, v, key, state).state == AssignedAll(state, Occurrences(rules, v, key))
    decreases v, 1, 0
  {
    if IsContainer(v) {
      StateFollowsFrom(rules, v, key, 0, state);
    } else {
      var t := TreatmentOf(rules, v, key);
      if t.Tokenise? {
        OneAssignment(state, t.c, t.text);
      }
    }
  }

  lemma OneAssignment(state: TokenState, c: Category, text: string)
    ensures AssignedAll(state, [(c, text)]) == Assigned(state, c, text)
  {
    assert [(c, text)][1..] == [];
  }

  lemma {:induction false} StateFollowsFrom(rules: Rules, v: Value, key: Option<string>, i: nat, state: TokenState)
    requires IsContainer(v) && i <= Size(v) && SanitizeFrom(rules, v, key, i, state).KidsClean?
    ensures SanitizeFrom(rules, v, key, i, state).state == AssignedAll(state, OccurrencesFrom(rules, v, i))
    decreases v, 0, Size(v) - i
  {
    if i < Size(v) {
      var first := Sanitize(rules, Kid(v, i), KidKey(v, i), state);
      StateFollowsOccurrences(rules, Kid(v, i), KidKey(v, i), state);
      StateFollowsFrom(rules, v, key, i + 1, first.state);
      AssignInParts(state, Occurrences(rules, Kid(v, i), KidKey(v, i)), OccurrencesFrom(rules, v, i + 1));
    }
  }

  /** The value that comes out is the input with every tokenised scalar replaced under any later numbering. */
  lemma {:induction false} OutputIsReplacement(rules: Rules, v: Value, key: Option<string>, state: TokenState, later: TokenState)
    requires Sanitize(rules, v, key, state).Clean? && Extends(later, Sanitize(rules, v, key, state).state)
    ensures Covers(later.values, Occurrences(rules, v, key))
    ensures Sanitize(rules, v, key, state).value == Replaced(rules, v, key, later.values)
    decreases v, 1, 0
  {
    StateFollowsOccurrences(rules, v, key, state);
    AssigningExtends(state, Occurrences(rules, v, key));
    if IsContainer(v) {
      OutputIsReplacementFrom(rules, v, key, 0, state, later);
    }
  }

  lemma {:induction false} OutputIsReplacementFrom(rules: Rules, v: Value, key: Option<string>, i: nat, state: TokenState, later: TokenState)
    requires IsContainer(v) && i <= Size(v) && SanitizeFrom(rules, v, key, i, state).KidsClean?
    requires Extends(later, SanitizeFrom(rules, v, key, i, state).state)
    ensures Covers(later.values, OccurrencesFrom(rules, v, i))
    ensures SanitizeFrom(rules, v, key, i, state).values == ReplacedFrom(rules, v, i, later.values)
    decreases v, 0, Size(v) - i
  {
    StateFollowsFrom(rules, v, key, i, state);
    AssigningExtends(state, OccurrencesFrom(rules, v, i));
    ExtendsCovers(later, SanitizeFrom(rules, v, key, i, state).state, OccurrencesFrom(rules, v, i));
    if i < Size(v) {
      FromUnfolds(rules, v, key, i, state);
      var first := Sanitize(rules, Kid(v, i), KidKey(v, i), state);
      var rest := SanitizeFrom(rules, v, key, i + 1, first.state);
      OutputIsReplacementFrom(rules, v, key, i + 1, first.state, later);
      StateFollowsFrom(rules, v, key, i + 1, first.state);
      AssigningExtends(first.state, OccurrencesFrom(rules, v, i + 1));
      ExtendsFurther(later, rest.state, first.state);
      OutputIsReplacement(rules, Kid(v, i), KidKey(v, i), state, later);
      ReplacedFromUnfolds(rules, v, i, later.values);
    }
  }

  lemma ExtendsCovers(later: TokenState, state: TokenState, met: seq<(Category, string)>)
    requires Extends(later, state) && Covers(state.values, met)
    ensures Covers(later.values, met)
  {
  }

  lemma ExtendsFurther(later: TokenState, state: TokenState, earlier: TokenState)
    requires Extends(later, state) && Extends(state, earlier)
    ensures Extends(later, earlier)
  {
  }

  lemma ReplacedFromUnfolds(rules: Rules, v: Value, i: nat, values: map<(Category, string), nat>)
    requires IsContainer(v) && i < Size(v) && Covers(values, OccurrencesFrom(rules, v, i))
    ensures Covers(values, Occurrences(rules, Kid(v, i), KidKey(v, i))) && Covers(values, OccurrencesFrom(rules, v, i + 1))
    ensures ReplacedFrom(rules, v, i, values)
         == [Replaced(rules, Kid(v, i), KidKey(v, i), values)] + ReplacedFrom(rules, v, i + 1, values)
  {
    CoversParts(values, Occurrences(rules, Kid(v, i), KidKey(v, i)), OccurrencesFrom(rules, v, i + 1));
  }

  lemma SameTokenSameValue(state: TokenState, met: seq<(Category, string)>, p: (Category, string), q: (Category, string))
    requires NumberedByFirstMet(state, met) && p in state.values && q in state.values
    ensures TokenText(p.0, state.values[p]) == TokenText(q.0, state.values[q]) <==> p == q
  {
    if TokenText(p.0, state.values[p]) == TokenText(q.0, state.values[q]) {
      TokensAreDistinct(p.0, state.values[p], q.0, state.values[q]);
      SameNumberSameValue(state, met, p, q);
    }
  }

  lemma SameNumberSameValue(state: TokenState, met: seq<(Category, string)>, p: (Category, string), q: (Category, string))
    requires NumberedByFirstMet(state, met) && p in state.values && q in state.values
    requires p.0 == q.0 && state.values[p] == state.values[q]
    ensures p == q
  {
    var first := FirstMet(met, p.0);
    assert NumberedAs(state, p.0, first);
    assert (p.0, p.1) in state.values && (q.0, q.1) in state.values;
    var j :| 0 <= j < |first| && first[j] == p.1;
    var k :| 0 <= k < |first| && first[k] == q.1;
  }

  /** Two scalars under one numbering: a tokenised one and any other are replaced alike exactly when they have one category
      and value, or the other is a literal with the spelling of that token. */
  lemma ReplacedAlikeIff(rules: Rules, state: TokenState, met: seq<(Category, string)>, u: Value, uKey: Option<string>, w: Value, wKey: Option<string>)
    requires NumberedByFirstMet(state, met) && Covers(state.values, Occurrences(rules, u, uKey)) && Covers(state.values, Occurrences(rules, w, wKey))
    requires !IsContainer(u) && !IsContainer(w) && TreatmentOf(rules, u, uKey).Tokenise? && !TreatmentOf(rules, w, wKey).Refuse?
    ensures var t := TreatmentOf(rules, u, uKey);
            (t.c, t.text) in state.values &&
            (Replaced(rules, u, uKey, state.values) == Replaced(rules, w, wKey, state.values) <==>
               TreatmentOf(rules, w, wKey) == t || w == Text(TokenText(t.c, state.values[(t.c, t.text)])))
  {
    var t, x := TreatmentOf(rules, u, uKey), TreatmentOf(rules, w, wKey);
    assert Occurrences(rules, u, uKey)[0] == (t.c, t.text);
    var n := state.values[(t.c, t.text)];
    TokensAreTokens(t.c, n);
    if x.Tokenise? {
      assert Occurrences(rules, w, wKey)[0] == (x.c, x.text);
      var m := state.values[(x.c, x.text)];
      if TokenText(t.c, n) == TokenText(x.c, m) {
        TokensAreDistinct(t.c, n, x.c, m);
        SameNumberSameValue(state, met, (t.c, t.text), (x.c, x.text));
      }
    }
  }

  // ---------------------------------------------------------------------- renaming

  /** Two values that differ only in what is tokenised, by a renaming of each category's values. */
  predicate Alike(rules: Rules, rho: (Category, string) -> string, v: Value, w: Value, key: Option<string>)
    decreases v
  {
    if IsContainer(v) then
      && IsContainer(w) && (v.List? <==> w.List?) && Size(v) == Size(w)
      && (forall i: nat | i < Size(v) ::
            KidKey(v, i) == KidKey(w, i) && Alike(rules, rho, Kid(v, i), Kid(w, i), KidKey(v, i)))
    else
      !IsContainer(w) &&
      match TreatmentOf(rules, v, key)
      case Tokenise(c, text) => TreatmentOf(rules, w, key) == Tokenise(c, rho(c, text))
      case _ => w == v
  }

  ghost predicate Injective(rho: (Category, string) -> string)
  {
    forall c: Category, a: string, b: string :: rho(c, a) == rho(c, b) ==> a == b
  }

  predicate SameNumber(s: TokenState, p: (Category, string), t: TokenState, q: (Category, string))
  {
    (p in s.values <==> q in t.values) && (p in s.values && q in t.values ==> s.values[p] == t.values[q])
  }

  /** The second state is the first under the renaming. */
  ghost predicate Renamed(rho: (Category, string) -> string, s: TokenState, t: TokenState)
  {
    && t.counts == s.counts
    && (forall c: Category, a: string {:trigger rho(c, a)} :: SameNumber(s, (c, a), t, (c, rho(c, a))))
  }

  lemma AssignKeepsRenaming(rho: (Category, string) -> string, s: TokenState, t: TokenState, c: Category, text: string)
    requires Injective(rho) && Renamed(rho, s, t)
    ensures Renamed(rho, Assigned(s, c, text), Assigned(t, c, rho(c, text)))
    ensures Assigned(s, c, text).values[(c, text)] == Assigned(t, c, rho(c, text)).values[(c, rho(c, text))]
  {
  }

  lemma {:induction false} RenamingIsInvisible(rules: Rules, rho: (Category, string) -> string, v: Value, w: Value, key: Option<string>,
                                               s: TokenState, t: TokenState)
    requires Injective(rho) && Alike(rules, rho, v, w, key) && Renamed(rho, s, t)
    ensures var a, b := Sanitize(rules, v, key, s), Sanitize(rules, w, key, t);
            (a.Clean? <==> b.Clean?) && (a.Clean? ==> a.value == b.value && Renamed(rho, a.state, b.state))
    decreases v, 1, 0
  {
    if IsContainer(v) {
      RenamingIsInvisibleFrom(rules, rho, v, w, key, 0, s, t);
      SameShell(v, w);
    } else {
      var treat := TreatmentOf(rules, v, key);
      if treat.Tokenise? {
        AssignKeepsRenaming(rho, s, t, treat.c, treat.text);
      }
    }
  }

  lemma SameShell(v: Value, w: Value)
    requires IsContainer(v) && IsContainer(w) && (v.List? <==> w.List?) && Size(v) == Size(w)
    requires forall i: nat | i < Size(v) :: KidKey(v, i) == KidKey(w, i)
    ensures forall kids: seq<Value> | |kids| == Size(v) :: WithKids(v, kids) == WithKids(w, kids)
  {
    forall kids: seq<Value> | |kids| == Size(v) ensures WithKids(v, kids) == WithKids(w, kids) {
      if v.Record? {
        forall i | 0 <= i < |kids| ensures WithKids(v, kids).fields[i] == WithKids(w, kids).fields[i] {
          assert KidKey(v, i) == KidKey(w, i);
        }
      }
    }
  }

  ghost predicate SameUpToRenaming(rho: (Category, string) -> string, a: KidsOutcome, b: KidsOutcome)
  {
    (a.KidsClean? <==> b.KidsClean?) && (a.KidsClean? ==> a.values == b.values && Renamed(rho, a.state, b.state))
  }

  lemma SameAfterFirst(rho: (Category, string) -> string, value: Value, a: KidsOutcome, b: KidsOutcome)
    requires SameUpToRenaming(rho, a, b)
    ensures SameUpToRenaming(rho, AfterFirst(value, a), AfterFirst(value, b))
  {
  }

  lemma {:induction false} RenamingIsInvisibleFrom(rules: Rules, rho: (Category, string) -> string, v: Value, w: Value, key: Option<string>,
                                                   i: nat, s: TokenState, t: TokenState)
    requires Injective(rho) && IsContainer(v) && Alike(rules, rho, v, w, key) && i <= Size(v) && Renamed(rho, s, t)
    ensures IsContainer(w) && Size(w) == Size(v)
    ensures SameUpToRenaming(rho, SanitizeFrom(rules, v, key, i, s), SanitizeFrom(rules, w, key, i, t))
    decreases v, 0, Size(v) - i
  {
    if i < Size(v) {
      AlikeKid(rules, rho, v, w, key, i);
      FromUnfolds(rules, v, key, i, s);
      FromUnfolds(rules, w, key, i, t);
      RenamingIsInvisible(rules, rho, Kid(v, i), Kid(w, i), KidKey(v, i), s, t);
      var a, b := Sanitize(rules, Kid(v, i), KidKey(v, i), s), Sanitize(rules, Kid(w, i), KidKey(w, i), t);
      if a.Clean? {
        RenamingIsInvisibleFrom(rules, rho, v, w, key, i + 1, a.state, b.state);
        SameAfterFirst(rho, a.value, SanitizeFrom(rules, v, key, i + 1, a.state), SanitizeFrom(rules, w, key, i + 1, b.state));
      }
    }
  }

  lemma AlikeKid(rules: Rules, rho: (Category, string) -> string, v: Value, w: Value, key: Option<string>, i: nat)
    requires IsContainer(v) && Alike(rules, rho, v, w, key) && i < Size(v)
    ensures IsContainer(w) && Size(w) == Size(v) && KidKey(v, i) == KidKey(w, i)
    ensures Alike(rules, rho, Kid(v, i), Kid(w, i), KidKey(v, i))
    ensures KidAllowed(rules, v, key, i) <==> KidAllowed(rules, w, key, i)
  {
  }

  lemma FromUnfolds(rules: Rules, v: Value, key: Option<string>, i: nat, state: TokenState)
    requires IsContainer(v) && i < Size(v)
    ensures var r := SanitizeFrom(rules, v, key, i, state);
            var first := Sanitize(rules, Kid(v, i), KidKey(v, i), state);
            && (!KidAllowed(rules, v, key, i) || first.Refused? ==> r.KidsRefused?)
            && (KidAllowed(rules, v, key, i) && first.Clean? ==>
                  r == AfterFirst(first.value, SanitizeFrom(rules, v, key, i + 1, first.state)))
  {
  }

  // ------------------------------------------------------------------- transcripts

  datatype Entry = Entry(
    schemaVersion: int,
    sequence: int,
    timestamp: string,
    provider: string,
    direction: string,
    stepId: string,
    attempt: int,
    payload: Value)

  datatype TranscriptOutcome = TranscriptClean(entries: seq<Entry>, state: TokenState) | TranscriptRefused

  predicate EntryValid(provider: string, e: Entry)
  {
    && e.schemaVersion == 1 && e.sequence >= 1 && e.attempt >= 1
    && e.timestamp != "" && e.stepId != "" && e.provider == provider
    && (e.direction == "request" || e.direction == "response" || e.direction == "error")
  }

  lemma TextStaysText(rules: Rules, text: string, key: Option<string>, state: TokenState)
    requires Sanitize(rules, Text(text), key, state).Clean?
    ensures Sanitize(rules, Text(text), key, state).value.Text?
    ensures text != "" ==> Sanitize(rules, Text(text), key, state).value.text != ""
  {
  }

  datatype EntryOutcome = EntryClean(entry: Entry, state: TokenState) | EntryRefused

  /** The parts of an entry that are sanitized, in order, with their keys. */
  function PartsOf(e: Entry): (r: seq<(Value, Option<string>)>)
  {
    [(Text(e.timestamp), Some("timestamp")), (Text(e.stepId), Some("stepId")), (e.payload, None)]
  }

  function SanitizeParts(rules: Rules, parts: seq<(Value, Option<string>)>, state: TokenState): (r: KidsOutcome)
    ensures r.KidsClean? ==> |r.values| == |parts|
    decreases |parts|
  {
    if parts == [] then KidsClean([], state)
    else
      var first := Sanitize(rules, parts[0].0, parts[0].1, state);
      if first.Refused? then KidsRefused else AfterFirst(first.value, SanitizeParts(rules, parts[1..], first.state))
  }

  lemma {:induction false} TextPartsStayText(rules: Rules, parts: seq<(Value, Option<string>)>, state: TokenState)
    requires SanitizeParts(rules, parts, state).KidsClean?
    ensures forall i | 0 <= i < |parts| && parts[i].0.Text? ::
              var out := SanitizeParts(rules, parts, state).values[i];
              out.Text? && (parts[i].0.text != "" ==> out.text != "")
    decreases |parts|
  {
    if parts != [] {
      var first := Sanitize(rules, parts[0].0, parts[0].1, state);
      TextPartsStayText(rules, parts[1..], first.state);
      if parts[0].0.Text? {
        TextStaysText(rules, parts[0].0.text, parts[0].1, state);
      }
    }
  }

  function SanitizeEntry(rules: Rules, provider: string, e: Entry, state: TokenState): (r: EntryOutcome)
  {
    if !EntryValid(provider, e) then EntryRefused
    else
      var parts := SanitizeParts(rules, PartsOf(e), state);
      if parts.KidsRefused? then EntryRefused
      else
        TextPartsStayText(rules, PartsOf(e), state);
        assert PartsOf(e)[0].0.Text? && PartsOf(e)[1].0.Text?;
        EntryClean(e.(timestamp := parts.values[0].text, stepId := parts.values[1].text, payload := parts.values[2]), parts.state)
  }

  function SanitizeTranscript(rules: Rules, provider: string, entries: seq<Entry>, state: TokenState): (r: TranscriptOutcome)
    decreases |entries|
  {
    if entries == [] then TranscriptClean([], state)
    else
      var first := SanitizeEntry(rules, provider, entries[0], state);
      if first.EntryRefused? then TranscriptRefused
      else FirstEntry(first.entry, SanitizeTranscript(rules, provider, entries[1..], first.state))
  }

  function FirstEntry(e: Entry, rest: TranscriptOutcome): (r: TranscriptOutcome)
  {
    if rest.TranscriptRefused? then rest else TranscriptClean([e] + rest.entries, rest.state)
  }

  lemma EntryComesOutStable(rules: Rules, provider: string, e: Entry, state: TokenState, again: TokenState)
    requires SanitizeEntry(rules, provider, e, state).EntryClean?
    ensures var out := SanitizeEntry(rules, provider, e, state).entry;
            SanitizeEntry(rules, provider, out, again) == EntryClean(out, again)
  {
    var out := SanitizeEntry(rules, provider, e, state).entry;
    var parts := SanitizeParts(rules, PartsOf(e), state);
    TextPartsStayText(rules, PartsOf(e), state);
    assert PartsOf(e)[0].0.Text? && PartsOf(e)[1].0.Text?;
    PartsComeOutStable(rules, PartsOf(e), state, again);
    assert PartsOf(out) == Rekeyed(PartsOf(e), parts.values);
  }

  function Rekeyed(parts: seq<(Value, Option<string>)>, values: seq<Value>): (r: seq<(Value, Option<string>)>)
    requires |parts| == |values|
  {
    seq(|parts|, i requires 0 <= i < |parts| => (values[i], parts[i].1))
  }

  lemma {:induction false} PartsComeOutStable(rules: Rules, parts: seq<(Value, Option<string>)>, state: TokenState, again: TokenState)
    requires SanitizeParts(rules, parts, state).KidsClean?
    ensures var values := SanitizeParts(rules, parts, state).values;
            SanitizeParts(rules, Rekeyed(parts, values), again) == KidsClean(values, again)
    decreases |parts|
  {
    if parts != [] {
      var first := Sanitize(rules, parts[0].0, parts[0].1, state);
      var values := SanitizeParts(rules, parts, state).values;
      ComesOutStable(rules, parts[0].0, parts[0].1, state, again);
      PartsComeOutStable(rules, parts[1..], first.state, again);
      assert values[1..] == SanitizeParts(rules, parts[1..], first.state).values;
      assert Rekeyed(parts, values)[1..] == Rekeyed(parts[1..], values[1..]);
    }
  }

  /** A sanitized transcript is sanitized to itself. */
  lemma {:induction false} SanitizingIsIdempotent(rules: Rules, provider: string, entries: seq<Entry>, state: TokenState, again: TokenState)
    requires SanitizeTranscript(rules, provider, entries, state).TranscriptClean?
    ensures var out := SanitizeTranscript(rules, provider, entries, state).entries;
            SanitizeTranscript(rules, provider, out, again) == TranscriptClean(out, again)
    decreases |entries|
  {
    if entries != [] {
      var first := SanitizeEntry(rules, provider, entries[0], state);
      var out := SanitizeTranscript(rules, provider, entries, state).entries;
      EntryComesOutStable(rules, provider, entries[0], state, again);
      SanitizingIsIdempotent(rules, provider, entries[1..], first.state, again);
      assert out[1..] == SanitizeTranscript(rules, provider, entries[1..], first.state).entries;
    }
  }

  // ------------------------------------------------- numbering over a whole transcript

  function PartsOfAll(entries: seq<Entry>): (r: seq<(Value, Option<string>)>)
  {
    if entries == [] then [] else PartsOf(entries[0]) + PartsOfAll(entries[1..])
  }

  /** The values to be tokenised in a list of parts, in the order they are met. */
  function OccurrencesOfParts(rules: Rules, parts: seq<(Value, Option<string>)>): (r: seq<(Category, string)>)
  {
    if parts == [] then [] else Occurrences(rules, parts[0].0, parts[0].1) + OccurrencesOfParts(rules, parts[1..])
  }

  function ReplacedParts(rules: Rules, parts: seq<(Value, Option<string>)>, values: map<(Category, string), nat>)
    : (r: seq<(Value, Option<string>)>)
    requires Covers(values, OccurrencesOfParts(rules, parts))
  {
    if parts == [] then []
    else
      CoversParts(values, Occurrences(rules, parts[0].0, parts[0].1), OccurrencesOfParts(rules, parts[1..]));
      [(Replaced(rules, parts[0].0, parts[0].1, values), parts[0].1)] + ReplacedParts(rules, parts[1..], values)
  }

  lemma {:induction false} PartsFollowOccurrences(rules: Rules, parts: seq<(Value, Option<string>)>, state: TokenState)
    requires SanitizeParts(rules, parts, state).KidsClean?
    ensures SanitizeParts(rules, parts, state).state == AssignedAll(state, OccurrencesOfParts(rules, parts))
    decreases |parts|
  {
    if parts != [] {
      var first := Sanitize(rules, parts[0].0, parts[0].1, state);
      StateFollowsOccurrences(rules, parts[0].0, parts[0].1, state);
      PartsFollowOccurrences(rules, parts[1..], first.state);
      AssignInParts(state, Occurrences(rules, parts[0].0, parts[0].1), OccurrencesOfParts(rules, parts[1..]));
    }
  }

  lemma {:induction false} PartsAreReplaced(rules: Rules, parts: seq<(Value, Option<string>)>, state: TokenState, later: TokenState)
    requires SanitizeParts(rules, parts, state).KidsClean? && Extends(later, SanitizeParts(rules, parts, state).state)
    ensures Covers(later.values, OccurrencesOfParts(rules, parts))
    ensures Rekeyed(parts, SanitizeParts(rules, parts, state).values) == ReplacedParts(rules, parts, later.values)
    decreases |parts|
  {
    PartsFollowOccurrences(rules, parts, state);
    AssigningExtends(state, OccurrencesOfParts(rules, parts));
    ExtendsCovers(later, SanitizeParts(rules, parts, state).state, OccurrencesOfParts(rules, parts));
    if parts != [] {
      var first := Sanitize(rules, parts[0].0, parts[0].1, state);
      var rest := SanitizeParts(rules, parts[1..], first.state);
      PartsAreReplaced(rules, parts[1..], first.state, later);
      PartsFollowOccurrences(rules, parts[1..], first.state);
      AssigningExtends(first.state, OccurrencesOfParts(rules, parts[1..]));
      ExtendsFurther(later, rest.state, first.state);
      OutputIsReplacement(rules, parts[0].0, parts[0].1, state, later);
      RekeyedUnfolds(parts, first.value, rest.values);
    }
  }

  lemma RekeyedUnfolds(parts: seq<(Value, Option<string>)>, first: Value, rest: seq<Value>)
    requires parts != [] && |parts| == |rest| + 1
    ensures Rekeyed(parts, [first] + rest) == [(first, parts[0].1)] + Rekeyed(parts[1..], rest)
  {
  }

  lemma {:induction false} PartsInParts(rules: Rules, a: seq<(Value, Option<string>)>, b: seq<(Value, Option<string>)>, state: TokenState)
    requires SanitizeParts(rules, a, state).KidsClean?
    ensures SanitizeParts(rules, a + b, state)
         == AfterAll(SanitizeParts(rules, a, state).values, SanitizeParts(rules, b, SanitizeParts(rules, a, state).state))
    decreases |a|
  {
    if a == [] {
      assert a + b == b;
      AfterNothing(SanitizeParts(rules, b, state));
    } else {
      var first := Sanitize(rules, a[0].0, a[0].1, state);
      var rest := SanitizeParts(rules, a[1..], first.state);
      PartsInParts(rules, a[1..], b, first.state);
      assert (a + b)[0] == a[0] && (a + b)[1..] == a[1..] + b;
      AfterFirstOfAll(first.value, rest.values, SanitizeParts(rules, b, rest.state));
    }
  }

  lemma AfterNothing(rest: KidsOutcome)
    ensures AfterAll([], rest) == rest
  {
    if rest.KidsClean? {
      assert [] + rest.values == rest.values;
    }
  }

  lemma AfterFirstOfAll(first: Value, values: seq<Value>, rest: KidsOutcome)
    ensures AfterFirst(first, AfterAll(values, rest)) == AfterAll([first] + values, rest)
  {
    if rest.KidsClean? {
      assert [first] + (values + rest.values) == ([first] + values) + rest.values;
    }
  }

  /** The parts of the entry that comes out are the parts that come out. */
  lemma EntryIsItsParts(rules: Rules, provider: string, e: Entry, state: TokenState)
    requires SanitizeEntry(rules, provider, e, state).EntryClean?
    ensures var r, parts := SanitizeEntry(rules, provider, e, state), SanitizeParts(rules, PartsOf(e), state);
            && parts.KidsClean? && parts.state == r.state && PartsOf(r.entry) == Rekeyed(PartsOf(e), parts.values)
            && SameFrame(r.entry, e)
  {
    TextPartsStayText(rules, PartsOf(e), state);
    assert PartsOf(e)[0].0.Text? && PartsOf(e)[1].0.Text?;
  }

  /** The fields of an entry that are not sanitized. */
  predicate SameFrame(a: Entry, b: Entry)
  {
    && a.schemaVersion == b.schemaVersion && a.sequence == b.sequence && a.attempt == b.attempt
    && a.provider == b.provider && a.direction == b.direction
  }

  predicate SameFrames(a: seq<Entry>, b: seq<Entry>)
  {
    |a| == |b| && forall i | 0 <= i < |a| :: SameFrame(a[i], b[i])
  }

  lemma RekeyedInParts(a: seq<(Value, Option<string>)>, b: seq<(Value, Option<string>)>, x: seq<Value>, y: seq<Value>)
    requires |a| == |x| && |b| == |y|
    ensures Rekeyed(a + b, x + y) == Rekeyed(a, x) + Rekeyed(b, y)
  {
  }

  /** Sanitizing a transcript is sanitizing all parts of all entries through one state. */
  lemma {:induction false} TranscriptIsItsParts(rules: Rules, provider: string, entries: seq<Entry>, state: TokenState)
    requires SanitizeTranscript(rules, provider, entries, state).TranscriptClean?
    ensures var r, parts := SanitizeTranscript(rules, provider, entries, state), SanitizeParts(rules, PartsOfAll(entries), state);
            && parts.KidsClean? && parts.state == r.state && PartsOfAll(r.entries) == Rekeyed(PartsOfAll(entries), parts.values)
            && SameFrames(r.entries, entries)
    decreases |entries|
  {
    if entries != [] {
      var first := SanitizeEntry(rules, provider, entries[0], state);
      var rest := SanitizeTranscript(rules, provider, entries[1..], first.state);
      EntryIsItsParts(rules, provider, entries[0], state);
      TranscriptIsItsParts(rules, provider, entries[1..], first.state);
      PartsInParts(rules, PartsOf(entries[0]), PartsOfAll(entries[1..]), state);
      var here, later := SanitizeParts(rules, PartsOf(entries[0]), state), SanitizeParts(rules, PartsOfAll(entries[1..]), first.state);
      RekeyedInParts(PartsOf(entries[0]), PartsOfAll(entries[1..]), here.values, later.values);
      assert ([first.entry] + rest.entries)[1..] == rest.entries;
    }
  }

  predicate SharedExactlyByEquals(values: map<(Category, string), nat>, met: seq<(Category, string)>)
    requires Covers(values, met)
  {
    forall i, j | 0 <= i < |met| && 0 <= j < |met| ::
      TokenText(met[i].0, values[met[i]]) == TokenText(met[j].0, values[met[j]]) <==> met[i] == met[j]
  }

  lemma NumberedFromNothing(met: seq<(Category, string)>)
    ensures NumberedByFirstMet(AssignedAll(NO_TOKENS, met), met)
  {
    assert NumberedByFirstMet(NO_TOKENS, []);
    AssignAllNumbers(NO_TOKENS, [], met);
    assert [] + met == met;
  }

  lemma NumberedIsShared(state: TokenState, met: seq<(Category, string)>)
    requires NumberedByFirstMet(state, met) && Covers(state.values, met)
    ensures SharedExactlyByEquals(state.values, met)
  {
    forall i, j | 0 <= i < |met| && 0 <= j < |met|
      ensures TokenText(met[i].0, state.values[met[i]]) == TokenText(met[j].0, state.values[met[j]]) <==> met[i] == met[j]
    {
      SameTokenSameValue(state, met, met[i], met[j]);
    }
  }

  /** Any list of values sanitized through one fresh state. */
  lemma PartsFollowFirstOccurrence(rules: Rules, parts: seq<(Value, Option<string>)>)
    requires SanitizeParts(rules, parts, NO_TOKENS).KidsClean?
    ensures var r, met := SanitizeParts(rules, parts, NO_TOKENS), OccurrencesOfParts(rules, parts);
            && NumberedByFirstMet(r.state, met)
            && Covers(r.state.values, met) && Rekeyed(parts, r.values) == ReplacedParts(rules, parts, r.state.values)
            && SharedExactlyByEquals(r.state.values, met)
  {
    var r, met := SanitizeParts(rules, parts, NO_TOKENS), OccurrencesOfParts(rules, parts);
    PartsFollowOccurrences(rules, parts, NO_TOKENS);
    PartsAreReplaced(rules, parts, NO_TOKENS, r.state);
    NumberedFromNothing(met);
    NumberedIsShared(r.state, met);
  }

  /** A whole transcript, whose entries share one state: tokens are numbered per category by the first occurrence anywhere in
      it; every timestamp, step id and payload that comes out is the one that went in with each tokenised scalar replaced
      under the final numbering, everything else being kept; and two values share a token exactly when they are the same
      value of the same category, however far apart. */
  lemma TokensFollowFirstOccurrence(rules: Rules, provider: string, entries: seq<Entry>)
    requires SanitizeTranscript(rules, provider, entries, NO_TOKENS).TranscriptClean?
    ensures var r := SanitizeTranscript(rules, provider, entries, NO_TOKENS);
            var met := OccurrencesOfParts(rules, PartsOfAll(entries));
            && NumberedByFirstMet(r.state, met)
            && Covers(r.state.values, met)
            && PartsOfAll(r.entries) == ReplacedParts(rules, PartsOfAll(entries), r.state.values)
            && SameFrames(r.entries, entries)
            && SharedExactlyByEquals(r.state.values, met)
  {
    TranscriptIsItsParts(rules, provider, entries, NO_TOKENS);
    PartsFollowFirstOccurrence(rules, PartsOfAll(entries));
  }

  /** The value is met somewhere in the transcript. */
  predicate Meets(rules: Rules, entries: seq<Entry>, v: Value, key: Option<string>)
  {
    forall p | p in Occurrences(rules, v, key) :: p in OccurrencesOfParts(rules, PartsOfAll(entries))
  }

  /** A string that is already spelled like a token is kept, and so can meet a real token: under the numbering of a
      transcript a tokenised scalar of it and any other come out the same exactly when they have one category and value, or
      the other is a literal with that very spelling. */
  lemma ScalarsCollideIff(rules: Rules, provider: string, entries: seq<Entry>, u: Value, uKey: Option<string>, w: Value, wKey: Option<string>)
    requires SanitizeTranscript(rules, provider, entries, NO_TOKENS).TranscriptClean?
    requires Meets(rules, entries, u, uKey) && Meets(rules, entries, w, wKey)
    requires !IsContainer(u) && !IsContainer(w) && TreatmentOf(rules, u, uKey).Tokenise? && !TreatmentOf(rules, w, wKey).Refuse?
    ensures var values := SanitizeTranscript(rules, provider, entries, NO_TOKENS).state.values;
            var t := TreatmentOf(rules, u, uKey);
            && (t.c, t.text) in values
            && Covers(values, Occurrences(rules, u, uKey)) && Covers(values, Occurrences(rules, w, wKey))
            && (Replaced(rules, u, uKey, values) == Replaced(rules, w, wKey, values) <==>
                  TreatmentOf(rules, w, wKey) == t || w == Text(TokenText(t.c, values[(t.c, t.text)])))
  {
    var state := SanitizeTranscript(rules, provider, entries, NO_TOKENS).state;
    var met := OccurrencesOfParts(rules, PartsOfAll(entries));
    TokensFollowFirstOccurrence(rules, provider, entries);
    MetIsCovered(state.values, met, Occurrences(rules, u, uKey));
    MetIsCovered(state.values, met, Occurrences(rules, w, wKey));
    ReplacedAlikeIff(rules, state, met, u, uKey, w, wKey);
  }

  lemma MetIsCovered(values: map<(Category, string), nat>, met: seq<(Category, string)>, some: seq<(Category, string)>)
    requires Covers(values, met) && forall p | p in some :: p in met
    ensures Covers(values, some)
  {
    forall i | 0 <= i < |some| ensures some[i] in values {
      assert some[i] in met;
    }
  }

  predicate EntriesAlike(rules: Rules, rho: (Category, string) -> string, a: Entry, b: Entry)
  {
    && a.(timestamp := "", stepId := "", payload := Null) == b.(timestamp := "", stepId := "", payload := Null)
    && (a.timestamp == "" <==> b.timestamp == "") && (a.stepId == "" <==> b.stepId == "")
    && Alike(rules, rho, Text(a.timestamp), Text(b.timestamp), Some("timestamp"))
    && Alike(rules, rho, Text(a.stepId), Text(b.stepId), Some("stepId"))
    && Alike(rules, rho, a.payload, b.payload, None)
  }

  lemma {:induction false} RenamedPartsSanitizeAlike(rules: Rules, rho: (Category, string) -> string, a: seq<(Value, Option<string>)>,
                                                     b: seq<(Value, Option<string>)>, s: TokenState, t: TokenState)
    requires Injective(rho) && Renamed(rho, s, t) && |a| == |b|
    requires forall i | 0 <= i < |a| :: a[i].1 == b[i].1 && Alike(rules, rho, a[i].0, b[i].0, a[i].1)
    ensures SameUpToRenaming(rho, SanitizeParts(rules, a, s), SanitizeParts(rules, b, t))
    decreases |a|
  {
    if a != [] {
      RenamingIsInvisible(rules, rho, a[0].0, b[0].0, a[0].1, s, t);
      var x, y := Sanitize(rules, a[0].0, a[0].1, s), Sanitize(rules, b[0].0, b[0].1, t);
      if x.Clean? {
        RenamedPartsSanitizeAlike(rules, rho, a[1..], b[1..], x.state, y.state);
      }
    }
  }

  lemma RenamedEntriesSanitizeAlike(rules: Rules, rho: (Category, string) -> string, provider: string, e: Entry, f: Entry,
                                    s: TokenState, t: TokenState)
    requires Injective(rho) && Renamed(rho, s, t) && EntriesAlike(rules, rho, e, f)
    ensures var x, y := SanitizeEntry(rules, provider, e, s), SanitizeEntry(rules, provider, f, t);
            (x.EntryClean? <==> y.EntryClean?) && (x.EntryClean? ==> x.entry == y.entry && Renamed(rho, x.state, y.state))
  {
    RenamedPartsSanitizeAlike(rules, rho, PartsOf(e), PartsOf(f), s, t);
    if EntryValid(provider, e) && SanitizeParts(rules, PartsOf(e), s).KidsClean? {
      TextPartsStayText(rules, PartsOf(e), s);
      assert PartsOf(e)[0].0.Text? && PartsOf(e)[1].0.Text?;
    }
  }

  /** Two transcripts that differ only by an injective renaming of the tokenised values sanitize to the same entries. */
  lemma {:induction false} RenamedTranscriptsSanitizeAlike(rules: Rules, rho: (Category, string) -> string, provider: string,
                                                           a: seq<Entry>, b: seq<Entry>, s: TokenState, t: TokenState)
    requires Injective(rho) && Renamed(rho, s, t) && |a| == |b|
    requires forall i | 0 <= i < |a| :: EntriesAlike(rules, rho, a[i], b[i])
    ensures var x, y := SanitizeTranscript(rules, provider, a, s), SanitizeTranscript(rules, provider, b, t);
            (x.TranscriptClean? <==> y.TranscriptClean?) && (x.TranscriptClean? ==> x.entries == y.entries)
    decreases |a|
  {
    if a != [] {
      RenamedEntriesSanitizeAlike(rules, rho, provider, a[0], b[0], s, t);
      var x, y := SanitizeEntry(rules, provider, a[0], s), SanitizeEntry(rules, provider, b[0], t);
      if x.EntryClean? {
        RenamedTranscriptsSanitizeAlike(rules, rho, provider, a[1..], b[1..], x.state, y.state);
      }
    }
  }

  // --------------------------------------------------------------- the sanitizer itself

  /** The two maps of tokens, filled in place while values are walked. */
  class Sanitizer {
    const rules: Rules
    var values: map<(Category, string), nat>
    var counts: map<Category, nat>

    ghost function Tokens(): (r: TokenState)
      reads this
    {
      TokenState(values, counts)
    }

    constructor (rules: Rules)
      ensures this.rules == rules && Tokens() == NO_TOKENS
    {
      this.rules, values, counts := rules, map[], map[];
    }

    method Token(c: Category, text: string) returns (r: string)
      modifies this
      ensures Tokens() == Assigned(old(Tokens()), c, text)
      ensures (c, text) in values && r == TokenText(c, values[(c, text)])
    {
      if (c, text) in values {
        return TokenText(c, values[(c, text)]);
      }
      var next := (if c in counts then counts[c] else 0) + 1;
      counts := counts[c := next];
      values := values[(c, text) := next];
      r := TokenText(c, next);
    }

    /** None when the value is refused. */
    method SanitizeValue(v: Value, key: Option<string>) returns (r: Option<Value>)
      modifies this
      ensures var spec := Sanitize(rules, v, key, old(Tokens()));
              (r.Some? <==> spec.Clean?) && (r.Some? ==> spec == Clean(r.value, Tokens()))
      decreases v, 1
    {
      if IsContainer(v) {
        var kids := SanitizeKids(v, key);
        return if kids.None? then None else Some(WithKids(v, kids.value));
      }
      var treatment := TreatmentOf(rules, v, key);
      if treatment.Keep? {
        return Some(v);
      }
      if treatment.Refuse? {
        return None;
      }
      var text := Token(treatment.c, treatment.text);
      return Some(Text(text));
    }

    method SanitizeKids(v: Value, key: Option<string>) returns (r: Option<seq<Value>>)
      requires IsContainer(v)
      modifies this
      ensures var spec := SanitizeFrom(rules, v, key, 0, old(Tokens()));
              (r.Some? <==> spec.KidsClean?) && (r.Some? ==> spec == KidsClean(r.value, Tokens()))
      decreases v, 0
    {
      var output: seq<Value> := [];
      var i := 0;
      ghost var spec := SanitizeFrom(rules, v, key, 0, Tokens());
      while i < Size(v)
        invariant i <= Size(v) && spec == AfterAll(output, SanitizeFrom(rules, v, key, i, Tokens()))
      {
        FromUnfolds(rules, v, key, i, Tokens());
        if !KidAllowed(rules, v, key, i) {
          return None;
        }
        ghost var told := output;
        var child := SanitizeValue(Kid(v, i), KidKey(v, i));
        if child.None? {
          return None;
        }
        output := output + [child.value];
        AfterAllAppend(told, child.value, SanitizeFrom(rules, v, key, i + 1, Tokens()));
        i := i + 1;
      }
      assert output + [] == output;
      return Some(output);
    }
  }

  function AfterAll(values: seq<Value>, rest: KidsOutcome): (r: KidsOutcome)
  {
    if rest.KidsRefused? then KidsRefused else KidsClean(values + rest.values, rest.state)
  }

  lemma AfterAllAppend(values: seq<Value>, next: Value, rest: KidsOutcome)
    ensures AfterAll(values, AfterFirst(next, rest)) == AfterAll(values + [next], rest)
  {
    if rest.KidsClean? {
      assert values + ([next] + rest.values) == (values + [next]) + rest.values;
    }
  }
}
