/** What the sanitizer lets through and what it makes of it, place by place (src/evidence/DifferentialEvidenceSanitizer.ts). */
module SanitizerMeaning {
  import opened Basics
  import opened EvidenceSanitizer

  /** The numbers given out, by category and value. */
  type Numbers = map<(Category, string), nat>

  predicate Digits(text: string)
  {
    text != [] && forall i | 0 <= i < |text| :: '0' <= text[i] <= '9'
  }

  ghost predicate SpelledAs(text: string, name: string)
  {
    exists digits: string :: Digits(digits) && text == "<" + name + "-" + digits + ">"
  }

  /** Already spelled like a token of one of the five kinds. */
  ghost predicate SpelledLikeToken(text: string)
  {
    SpelledAs(text, "path") || SpelledAs(text, "port") || SpelledAs(text, "pid") || SpelledAs(text, "timestamp") || SpelledAs(text, "id")
  }

  lemma SpellingIsToken(text: string, name: string)
    ensures IsTokenOf(name, text) <==> SpelledAs(text, name)
  {
    if IsTokenOf(name, text) {
      var digits := text[|name| + 2..|text| - 1];
      assert text == text[..|name| + 2] + digits + text[|text| - 1..];
      assert Digits(digits) && text == "<" + name + "-" + digits + ">";
    }
    if SpelledAs(text, name) {
      var digits: string :| Digits(digits) && text == "<" + name + "-" + digits + ">";
      assert text[..|name| + 2] == "<" + name + "-" && text[|name| + 2..|text| - 1] == digits;
    }
  }

  lemma TokenSpellings(text: string)
    ensures IsToken(text) <==> SpelledLikeToken(text)
  {
    forall c: Category ensures IsTokenOf(Name(c), text) <==> SpelledAs(text, Name(c)) {
      SpellingIsToken(text, Name(c));
    }
    if SpelledLikeToken(text) {
      assert SpelledAs(text, Name(PathToken)) || SpelledAs(text, Name(PortToken)) || SpelledAs(text, Name(PidToken))
             || SpelledAs(text, Name(TimestampToken)) || SpelledAs(text, Name(IdToken));
    }
  }

  /** The value stands under a key, not empty, that passes the test. */
  predicate Under(key: Option<string>, test: string -> bool)
  {
    match key
    case None => false
    case Some(name) => name != "" && test(name)
  }

  /** A string that may pass: a token, one whose key or form makes it a token, or one that is not too random. */
  ghost predicate TextPermitted(rules: Rules, text: string, key: Option<string>)
  {
    || SpelledLikeToken(text) || Under(key, rules.isTimestamp) || Under(key, rules.isId)
    || rules.isAbsolute(text) || !rules.isHighEntropy(text)
  }

  /** A field that may occur below a key: never one of the sensitive names, and a reviewed name unless the key's fields are
      free. */
  predicate FieldPermitted(rules: Rules, key: Option<string>, name: string)
  {
    !rules.isForbidden(name) && (rules.isAllowed(name) || (key.Some? && rules.isDynamic(key.value)))
  }

  /** A value that is let through: each of its strings and fields is. */
  ghost predicate Permitted(rules: Rules, v: Value, key: Option<string>)
    decreases v
  {
    match v
    case Text(text) => TextPermitted(rules, text, key)
    case List(items) => forall i | 0 <= i < |items| :: Permitted(rules, items[i], None)
    case Record(fields) =>
      forall i | 0 <= i < |fields| ::
        FieldPermitted(rules, key, fields[i].key) && (assert fields[i] < v; Permitted(rules, fields[i].value, Some(fields[i].key)))
    case _ => true
  }

  ghost predicate IsNumbered(out: Value, name: string, values: Numbers, c: Category, text: string)
  {
    (c, text) in values && out == Value.Text("<" + name + "-" + Decimal(values[(c, text)]) + ">")
  }

  /** What becomes of a number: a port, process or other id by its key, in this order, or itself. */
  ghost predicate NumberCleaned(rules: Rules, x: real, key: Option<string>, out: Value, values: Numbers)
  {
    if Under(key, rules.isPort) then IsNumbered(out, "port", values, PortToken, rules.show(x))
    else if Under(key, rules.isPid) then IsNumbered(out, "pid", values, PidToken, rules.show(x))
    else if Under(key, rules.isId) then IsNumbered(out, "id", values, IdToken, rules.show(x))
    else out == Number(x)
  }

  /** What becomes of a string: a token is kept, then timestamps and ids go by their keys, then absolute paths. */
  ghost predicate TextCleaned(rules: Rules, text: string, key: Option<string>, out: Value, values: Numbers)
  {
    if SpelledLikeToken(text) then out == Value.Text(text)
    else if Under(key, rules.isTimestamp) then IsNumbered(out, "timestamp", values, TimestampToken, text)
    else if Under(key, rules.isId) then IsNumbered(out, "id", values, IdToken, text)
    else if rules.isAbsolute(text) then IsNumbered(out, "path", values, PathToken, text)
    else out == Value.Text(text)
  }

  /** The cleaned form of a value: the same tree with the same keys, its numbers and strings cleaned under their own keys. */
  ghost predicate Cleaned(rules: Rules, v: Value, key: Option<string>, out: Value, values: Numbers)
    decreases v
  {
    match v
    case Null => out == Null
    case Flag(flag) => out == Flag(flag)
    case Number(x) => NumberCleaned(rules, x, key, out, values)
    case Text(text) => TextCleaned(rules, text, key, out, values)
    case List(items) =>
      && out.List? && |out.items| == |items|
      && forall i | 0 <= i < |items| :: Cleaned(rules, items[i], None, out.items[i], values)
    case Record(fields) =>
      && out.Record? && |out.fields| == |fields|
      && forall i | 0 <= i < |fields| ::
           && out.fields[i].key == fields[i].key
           && (assert fields[i] < v; Cleaned(rules, fields[i].value, Some(fields[i].key), out.fields[i].value, values))
  }

  // ------------------------------------------------------------------- one value

  lemma ScalarMeans(rules: Rules, v: Value, key: Option<string>, state: TokenState)
    requires !IsContainer(v)
    ensures Sanitize(rules, v, key, state).Clean? <==> Permitted(rules, v, key)
    ensures Permitted(rules, v, key) ==>
              Cleaned(rules, v, key, Sanitize(rules, v, key, state).value, Sanitize(rules, v, key, state).state.values)
  {
    if v.Text? {
      TokenSpellings(v.text);
    }
  }

  /** Every child of a container from a place on is let through. */
  ghost predicate KidsPermitted(rules: Rules, v: Value, key: Option<string>, i: nat)
    requires IsContainer(v) && i <= Size(v)
  {
    forall j: nat | i <= j < Size(v) :: KidPermitted(rules, v, key, j)
  }

  ghost predicate KidPermitted(rules: Rules, v: Value, key: Option<string>, j: nat)
    requires IsContainer(v) && j < Size(v)
  {
    (v.Record? ==> FieldPermitted(rules, key, v.fields[j].key)) && Permitted(rules, Kid(v, j), KidKey(v, j))
  }

  lemma ContainerPermitted(rules: Rules, v: Value, key: Option<string>)
    requires IsContainer(v)
    ensures Permitted(rules, v, key) <==> KidsPermitted(rules, v, key, 0)
  {
    if Permitted(rules, v, key) {
      forall j: nat | 0 <= j < Size(v) ensures KidPermitted(rules, v, key, j) {
      }
    }
    if KidsPermitted(rules, v, key, 0) {
      forall j: nat | 0 <= j < Size(v) ensures v.Record? ==> FieldPermitted(rules, key, v.fields[j].key) && Permitted(rules, v.fields[j].value, Some(v.fields[j].key))
                                       ensures v.List? ==> Permitted(rules, v.items[j], None)
      {
        assert KidPermitted(rules, v, key, j);
      }
    }
  }

  /** A value is let through exactly when all of it is permitted, whatever tokens have been given out. */
  lemma {:induction false} LetThroughIffPermitted(rules: Rules, v: Value, key: Option<string>, state: TokenState)
    ensures Sanitize(rules, v, key, state).Clean? <==> Permitted(rules, v, key)
    decreases v, 1, 0
  {
    if IsContainer(v) {
      ContainerPermitted(rules, v, key);
      KidsLetThrough(rules, v, key, 0, state);
    } else {
      ScalarMeans(rules, v, key, state);
    }
  }

  lemma {:induction false} KidsLetThrough(rules: Rules, v: Value, key: Option<string>, i: nat, state: TokenState)
    requires IsContainer(v) && i <= Size(v)
    ensures SanitizeFrom(rules, v, key, i, state).KidsClean? <==> KidsPermitted(rules, v, key, i)
    decreases v, 0, Size(v) - i
  {
    if i < Size(v) {
      FromUnfolds(rules, v, key, i, state);
      LetThroughIffPermitted(rules, Kid(v, i), KidKey(v, i), state);
      assert KidAllowed(rules, v, key, i) <==> (v.Record? ==> FieldPermitted(rules, key, v.fields[i].key));
      var first := Sanitize(rules, Kid(v, i), KidKey(v, i), state);
      if first.Clean? {
        KidsLetThrough(rules, v, key, i + 1, first.state);
      }
      assert KidsPermitted(rules, v, key, i) <==> KidPermitted(rules, v, key, i) && KidsPermitted(rules, v, key, i + 1);
    }
  }

  ghost predicate NumbersKept(later: Numbers, values: Numbers)
  {
    forall p | p in values :: p in later && later[p] == values[p]
  }

  lemma {:induction false} CleanedUnderLater(rules: Rules, v: Value, key: Option<string>, out: Value, values: Numbers, later: Numbers)
    requires Cleaned(rules, v, key, out, values) && NumbersKept(later, values)
    ensures Cleaned(rules, v, key, out, later)
    decreases v
  {
    match v
    case List(items) =>
      forall i | 0 <= i < |items| ensures Cleaned(rules, items[i], None, out.items[i], later) {
        CleanedUnderLater(rules, items[i], None, out.items[i], values, later);
      }
    case Record(fields) =>
      forall i | 0 <= i < |fields|
        ensures out.fields[i].key == fields[i].key && Cleaned(rules, fields[i].value, Some(fields[i].key), out.fields[i].value, later)
      {
        assert fields[i] < v;
        CleanedUnderLater(rules, fields[i].value, Some(fields[i].key), out.fields[i].value, values, later);
      }
    case _ =>
  }

  lemma SanitizingKeepsNumbers(rules: Rules, v: Value, key: Option<string>, state: TokenState)
    requires Sanitize(rules, v, key, state).Clean?
    ensures NumbersKept(Sanitize(rules, v, key, state).state.values, state.values)
  {
    StateFollowsOccurrences(rules, v, key, state);
    AssigningExtends(state, Occurrences(rules, v, key));
  }

  lemma SanitizingKidsKeepsNumbers(rules: Rules, v: Value, key: Option<string>, i: nat, state: TokenState)
    requires IsContainer(v) && i <= Size(v) && SanitizeFrom(rules, v, key, i, state).KidsClean?
    ensures NumbersKept(SanitizeFrom(rules, v, key, i, state).state.values, state.values)
  {
    StateFollowsFrom(rules, v, key, i, state);
    AssigningExtends(state, OccurrencesFrom(rules, v, i));
  }

  /** What comes out is the cleaned form of what went in. */
  lemma {:induction false} ComesOutCleaned(rules: Rules, v: Value, key: Option<string>, state: TokenState)
    requires Sanitize(rules, v, key, state).Clean?
    ensures Cleaned(rules, v, key, Sanitize(rules, v, key, state).value, Sanitize(rules, v, key, state).state.values)
    decreases v, 1, 0
  {
    if IsContainer(v) {
      KidsComeOutCleaned(rules, v, key, 0, state);
      ContainerCleaned(rules, v, key, SanitizeFrom(rules, v, key, 0, state).values, Sanitize(rules, v, key, state).state.values);
    } else {
      ScalarMeans(rules, v, key, state);
    }
  }

  ghost predicate KidsCleaned(rules: Rules, v: Value, i: nat, out: seq<Value>, values: Numbers)
    requires IsContainer(v) && i + |out| == Size(v)
  {
    forall j: nat | j < |out| :: Cleaned(rules, Kid(v, i + j), KidKey(v, i + j), out[j], values)
  }

  lemma ContainerCleaned(rules: Rules, v: Value, key: Option<string>, out: seq<Value>, values: Numbers)
    requires IsContainer(v) && |out| == Size(v) && KidsCleaned(rules, v, 0, out, values)
    ensures Cleaned(rules, v, key, WithKids(v, out), values)
  {
    forall j: nat | j < |out| ensures Cleaned(rules, Kid(v, j), KidKey(v, j), out[j], values) {
      assert Cleaned(rules, Kid(v, 0 + j), KidKey(v, 0 + j), out[j], values);
    }
    if v.List? {
      forall j: nat | j < |out| ensures Cleaned(rules, v.items[j], None, out[j], values) {
        assert Kid(v, j) == v.items[j];
      }
    } else {
      forall j: nat | j < |out| ensures Cleaned(rules, v.fields[j].value, Some(v.fields[j].key), out[j], values) {
        assert Kid(v, j) == v.fields[j].value;
      }
    }
  }

  lemma {:induction false} KidsComeOutCleaned(rules: Rules, v: Value, key: Option<string>, i: nat, state: TokenState)
    requires IsContainer(v) && i <= Size(v) && SanitizeFrom(rules, v, key, i, state).KidsClean?
    ensures var r := SanitizeFrom(rules, v, key, i, state);
            KidsCleaned(rules, v, i, r.values, r.state.values)
    decreases v, 0, Size(v) - i
  {
    if i < Size(v) {
      var r := SanitizeFrom(rules, v, key, i, state);
      var first := Sanitize(rules, Kid(v, i), KidKey(v, i), state);
      FromUnfolds(rules, v, key, i, state);
      ComesOutCleaned(rules, Kid(v, i), KidKey(v, i), state);
      KidsComeOutCleaned(rules, v, key, i + 1, first.state);
      SanitizingKidsKeepsNumbers(rules, v, key, i + 1, first.state);
      CleanedUnderLater(rules, Kid(v, i), KidKey(v, i), first.value, first.state.values, r.state.values);
      var rest := SanitizeFrom(rules, v, key, i + 1, first.state).values;
      FirstThenRest(rules, v, i, first.value, rest, r.state.values);
    }
  }

  lemma FirstThenRest(rules: Rules, v: Value, i: nat, first: Value, rest: seq<Value>, values: Numbers)
    requires IsContainer(v) && i + 1 + |rest| == Size(v) && KidsCleaned(rules, v, i + 1, rest, values)
    requires Cleaned(rules, Kid(v, i), KidKey(v, i), first, values)
    ensures KidsCleaned(rules, v, i, [first] + rest, values)
  {
    var out := [first] + rest;
    forall j: nat | j < |out| ensures Cleaned(rules, Kid(v, i + j), KidKey(v, i + j), out[j], values) {
      if j > 0 {
        assert Cleaned(rules, Kid(v, i + 1 + (j - 1)), KidKey(v, i + 1 + (j - 1)), rest[j - 1], values);
      }
    }
  }

  // ----------------------------------------------------------------- a transcript

  /** An entry that is let through. */
  ghost predicate EntryPermitted(rules: Rules, provider: string, e: Entry)
  {
    && e.schemaVersion == 1 && e.sequence >= 1 && e.attempt >= 1 && e.provider == provider
    && e.timestamp != "" && e.stepId != "" && e.direction in ["request", "response", "error"]
    && TextPermitted(rules, e.timestamp, Some("timestamp")) && TextPermitted(rules, e.stepId, Some("stepId"))
    && Permitted(rules, e.payload, None)
  }

  /** An entry and its cleaned form. */
  ghost predicate EntryCleaned(rules: Rules, e: Entry, out: Entry, values: Numbers)
  {
    && out.schemaVersion == e.schemaVersion && out.sequence == e.sequence && out.attempt == e.attempt
    && out.provider == e.provider && out.direction == e.direction
    && TextCleaned(rules, e.timestamp, Some("timestamp"), Value.Text(out.timestamp), values)
    && TextCleaned(rules, e.stepId, Some("stepId"), Value.Text(out.stepId), values)
    && Cleaned(rules, e.payload, None, out.payload, values)
  }

  lemma EntryMeans(rules: Rules, provider: string, e: Entry, state: TokenState)
    ensures SanitizeEntry(rules, provider, e, state).EntryClean? <==> EntryPermitted(rules, provider, e)
    ensures EntryPermitted(rules, provider, e) ==>
              var r := SanitizeEntry(rules, provider, e, state);
              EntryCleaned(rules, e, r.entry, r.state.values) && NumbersKept(r.state.values, state.values)
  {
    var parts := PartsOf(e);
    var a := Sanitize(rules, parts[0].0, parts[0].1, state);
    LetThroughIffPermitted(rules, parts[0].0, parts[0].1, state);
    if a.Clean? {
      var b := Sanitize(rules, parts[1].0, parts[1].1, a.state);
      LetThroughIffPermitted(rules, parts[1].0, parts[1].1, a.state);
      ComesOutCleaned(rules, parts[0].0, parts[0].1, state);
      SanitizingKeepsNumbers(rules, parts[0].0, parts[0].1, state);
      ThreeParts(rules, parts, state);
      if b.Clean? {
        var c := Sanitize(rules, parts[2].0, parts[2].1, b.state);
        LetThroughIffPermitted(rules, parts[2].0, parts[2].1, b.state);
        if c.Clean? {
          ComesOutCleaned(rules, parts[1].0, parts[1].1, a.state);
          SanitizingKeepsNumbers(rules, parts[1].0, parts[1].1, a.state);
          ComesOutCleaned(rules, parts[2].0, parts[2].1, b.state);
          SanitizingKeepsNumbers(rules, parts[2].0, parts[2].1, b.state);
          CleanedUnderLater(rules, parts[0].0, parts[0].1, a.value, a.state.values, c.state.values);
          CleanedUnderLater(rules, parts[1].0, parts[1].1, b.value, b.state.values, c.state.values);
        }
      }
    }
  }

  lemma ThreeParts(rules: Rules, parts: seq<(Value, Option<string>)>, state: TokenState)
    requires |parts| == 3
    ensures var a := Sanitize(rules, parts[0].0, parts[0].1, state);
            a.Clean? ==>
              var b := Sanitize(rules, parts[1].0, parts[1].1, a.state);
              if b.Refused? then SanitizeParts(rules, parts, state).KidsRefused?
              else
                var c := Sanitize(rules, parts[2].0, parts[2].1, b.state);
                SanitizeParts(rules, parts, state) == if c.Clean? then KidsClean([a.value, b.value, c.value], c.state) else KidsRefused
  {
    var a := Sanitize(rules, parts[0].0, parts[0].1, state);
    if a.Clean? {
      var b := Sanitize(rules, parts[1].0, parts[1].1, a.state);
      assert parts[1..][0] == parts[1] && parts[1..][1..] == [parts[2]];
      if b.Clean? {
        var c := Sanitize(rules, parts[2].0, parts[2].1, b.state);
        assert [parts[2]][1..] == [];
        assert SanitizeParts(rules, [parts[2]], b.state) == if c.Clean? then KidsClean([c.value] + [], c.state) else KidsRefused;
      }
    }
  }

  /** A transcript is let through exactly when every entry is permitted, and what comes out is the cleaned form of every
      entry under the final numbers. */
  lemma {:induction false} TranscriptMeans(rules: Rules, provider: string, entries: seq<Entry>, state: TokenState)
    ensures SanitizeTranscript(rules, provider, entries, state).TranscriptClean?
            <==> forall i | 0 <= i < |entries| :: EntryPermitted(rules, provider, entries[i])
    ensures var r := SanitizeTranscript(rules, provider, entries, state);
            r.TranscriptClean? ==>
              && |r.entries| == |entries| && NumbersKept(r.state.values, state.values)
              && forall i | 0 <= i < |entries| :: EntryCleaned(rules, entries[i], r.entries[i], r.state.values)
    decreases |entries|
  {
    if entries != [] {
      EntryMeans(rules, provider, entries[0], state);
      var first := SanitizeEntry(rules, provider, entries[0], state);
      if first.EntryClean? {
        var rest := SanitizeTranscript(rules, provider, entries[1..], first.state);
        TranscriptMeans(rules, provider, entries[1..], first.state);
        assert forall i | 0 <= i < |entries| - 1 :: entries[1..][i] == entries[i + 1];
        if rest.TranscriptClean? {
          EntryUnderLater(rules, entries[0], first.entry, first.state.values, rest.state.values);
        }
      }
    }
  }

  lemma EntryUnderLater(rules: Rules, e: Entry, out: Entry, values: Numbers, later: Numbers)
    requires EntryCleaned(rules, e, out, values) && NumbersKept(later, values)
    ensures EntryCleaned(rules, e, out, later)
  {
    CleanedUnderLater(rules, e.payload, None, out.payload, values, later);
  }
}
