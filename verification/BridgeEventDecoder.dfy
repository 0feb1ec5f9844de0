/** The budgeted copy of an incoming bridge message (src/ide/BridgeEventDecoder.ts), on plain data: trees without
    accessors, foreign prototypes or shared objects. */
module BridgeEventDecoder {
  import opened Basics

  datatype Field = Field(key: string, value: Value)

  datatype Value =
    | Null
    | Undefined
    | Text(text: string)
    | Flag(flag: bool)
    | Number(finite: bool, x: real)
    | List(items: seq<Value>)
    | Record(fields: seq<Field>)

  datatype Budget = Budget(keys: nat, items: nat)

  datatype Limits = Limits(maxDepth: int, maxRecordKeys: nat, maxArrayItems: nat, maxTotalKeys: nat, maxTotalItems: nat)

  datatype Failure = Malformed | LimitExceeded

  /** What is left of the budget comes back with the copy. */
  datatype Snapshot = Accepted(copy: Value, budget: Budget) | Rejected(failure: Failure)

  datatype KidsSnapshot = KidsAccepted(copies: seq<Value>, budget: Budget) | KidsRejected(failure: Failure)

  predicate IsContainer(v: Value)
  {
    v.List? || v.Record?
  }

  /** The values directly inside a container, in order. */
  function Size(v: Value): (r: nat)
    requires IsContainer(v)
  {
    if v.List? then |v.items| else |v.fields|
  }

  function Kid(v: Value, i: nat): (r: Value)
    requires IsContainer(v) && i < Size(v)
    ensures r < v
  {
    if v.List? then v.items[i]
    else
      assert v.fields[i].value < v.fields[i];
      v.fields[i].value
  }

  /** The same container over new values, under the same keys. */
  function WithKids(v: Value, kids: seq<Value>): (r: Value)
    requires IsContainer(v) && |kids| == Size(v)
  {
    if v.List? then List(kids)
    else Record(seq(|kids|, i requires 0 <= i < |kids| => Field(v.fields[i].key, kids[i])))
  }

  function Kids(v: Value): (r: seq<Value>)
    requires IsContainer(v)
  {
    seq(Size(v), i requires 0 <= i < Size(v) => Kid(v, i))
  }

  lemma OwnKidsGiveItBack(v: Value)
    requires IsContainer(v)
    ensures WithKids(v, Kids(v)) == v
  {
    if v.List? {
      assert Kids(v) == v.items;
    } else {
      assert WithKids(v, Kids(v)).fields == v.fields;
    }
  }

  /** Whether a container may be opened at all, and what is left of the budget once it is. */
  predicate Opens(v: Value, budget: Budget, limits: Limits, depth: int)
    requires IsContainer(v)
  {
    && depth <= limits.maxDepth
    && (v.List? ==> |v.items| <= budget.items && |v.items| <= limits.maxArrayItems)
    && (v.Record? ==> |v.fields| <= limits.maxRecordKeys && |v.fields| <= budget.keys)
  }

  function Charge(v: Value, budget: Budget): (r: Budget)
    requires IsContainer(v) && (v.List? ==> |v.items| <= budget.items) && (v.Record? ==> |v.fields| <= budget.keys)
  {
    if v.List? then budget.(items := budget.items - |v.items|) else budget.(keys := budget.keys - |v.fields|)
  }

  function SnapshotOf(v: Value, budget: Budget, limits: Limits, depth: int): (r: Snapshot)
    decreases v, 1, 0
  {
    if v.Number? then (if v.finite then Accepted(v, budget) else Rejected(Malformed))
    else if !IsContainer(v) then Accepted(v, budget)
    else if !Opens(v, budget, limits, depth) then Rejected(LimitExceeded)
    else
      var kids := KidsFrom(v, 0, Charge(v, budget), limits, depth);
      if kids.KidsRejected? then Rejected(kids.failure) else Accepted(WithKids(v, kids.copies), kids.budget)
  }

  function KidsFrom(v: Value, i: nat, budget: Budget, limits: Limits, depth: int): (r: KidsSnapshot)
    requires IsContainer(v) && i <= Size(v)
    ensures r.KidsAccepted? ==> |r.copies| == Size(v) - i
    decreases v, 0, Size(v) - i
  {
    if i == Size(v) then KidsAccepted([], budget)
    else
      var first := SnapshotOf(Kid(v, i), budget, limits, depth + 1);
      if first.Rejected? then KidsRejected(first.failure)
      else
        var rest := KidsFrom(v, i + 1, first.budget, limits, depth);
        if rest.KidsRejected? then rest else KidsAccepted([first.copy] + rest.copies, rest.budget)
  }

  // ------------------------------------------------------- what the limits mean

  /** Every number is finite. */
  predicate AllFinite(v: Value)
    decreases v
  {
    && (v.Number? ==> v.finite)
    && (IsContainer(v) ==> forall i: nat | i < Size(v) :: AllFinite(Kid(v, i)))
  }

  /** Containers nest no deeper than the limit, and each is within its own. */
  predicate WithinShape(v: Value, limits: Limits, depth: int)
    decreases v
  {
    IsContainer(v) ==>
      && depth <= limits.maxDepth
      && (v.List? ==> |v.items| <= limits.maxArrayItems)
      && (v.Record? ==> |v.fields| <= limits.maxRecordKeys)
      && forall i: nat | i < Size(v) :: WithinShape(Kid(v, i), limits, depth + 1)
  }

  /** Keys of all records, and items of all arrays, in the whole tree. */
  function TotalOf(v: Value): (r: Budget)
    decreases v, 1, 0
  {
    if !IsContainer(v) then Budget(0, 0)
    else
      var inside := TotalFrom(v, 0);
      if v.List? then inside.(items := inside.items + |v.items|) else inside.(keys := inside.keys + |v.fields|)
  }

  function TotalFrom(v: Value, i: nat): (r: Budget)
    requires IsContainer(v) && i <= Size(v)
    decreases v, 0, Size(v) - i
  {
    if i == Size(v) then Budget(0, 0)
    else
      var first, rest := TotalOf(Kid(v, i)), TotalFrom(v, i + 1);
      Budget(first.keys + rest.keys, first.items + rest.items)
  }

  predicate Affords(budget: Budget, total: Budget)
  {
    total.keys <= budget.keys && total.items <= budget.items
  }

  function Spent(budget: Budget, total: Budget): (r: Budget)
    requires Affords(budget, total)
  {
    Budget(budget.keys - total.keys, budget.items - total.items)
  }

  predicate Acceptable(v: Value, budget: Budget, limits: Limits, depth: int)
  {
    AllFinite(v) && WithinShape(v, limits, depth) && Affords(budget, TotalOf(v))
  }

  predicate KidsAcceptable(v: Value, i: nat, budget: Budget, limits: Limits, depth: int)
    requires IsContainer(v) && i <= Size(v)
  {
    && (forall j: nat | i <= j < Size(v) :: AllFinite(Kid(v, j)) && WithinShape(Kid(v, j), limits, depth + 1))
    && Affords(budget, TotalFrom(v, i))
  }

  lemma {:induction false} KidsAreExact(v: Value, i: nat, budget: Budget, limits: Limits, depth: int)
    requires IsContainer(v) && i <= Size(v)
    ensures KidsFrom(v, i, budget, limits, depth).KidsAccepted? <==> KidsAcceptable(v, i, budget, limits, depth)
    ensures KidsAcceptable(v, i, budget, limits, depth) ==>
              KidsFrom(v, i, budget, limits, depth) == KidsAccepted(Kids(v)[i..], Spent(budget, TotalFrom(v, i)))
    decreases v, 0, Size(v) - i
  {
    if i < Size(v) {
      SnapshotIsExact(Kid(v, i), budget, limits, depth + 1);
      var first := SnapshotOf(Kid(v, i), budget, limits, depth + 1);
      if first.Accepted? {
        KidsAreExact(v, i + 1, first.budget, limits, depth);
        assert Kids(v)[i..] == [Kid(v, i)] + Kids(v)[i + 1..];
      }
    }
  }

  /** A tree is accepted exactly when all its numbers are finite, its containers nest within the depth limit, each record
      and array is within its own limit, and its totals are within the two budgets; the copy is then the tree itself, and
      each budget has dropped by exactly the total. */
  lemma {:induction false} SnapshotIsExact(v: Value, budget: Budget, limits: Limits, depth: int)
    ensures SnapshotOf(v, budget, limits, depth).Accepted? <==> Acceptable(v, budget, limits, depth)
    ensures Acceptable(v, budget, limits, depth) ==>
              SnapshotOf(v, budget, limits, depth) == Accepted(v, Spent(budget, TotalOf(v)))
    decreases v, 1, 0
  {
    if IsContainer(v) {
      if Opens(v, budget, limits, depth) {
        KidsAreExact(v, 0, Charge(v, budget), limits, depth);
        assert Kids(v)[0..] == Kids(v);
        OwnKidsGiveItBack(v);
      }
    }
  }

  lemma {:induction false} KidsVerdict(v: Value, i: nat, budget: Budget, limits: Limits, depth: int)
    requires IsContainer(v) && i <= Size(v) && KidsFrom(v, i, budget, limits, depth).KidsRejected?
    ensures KidsFrom(v, i, budget, limits, depth).failure.Malformed? ==>
              exists j: nat :: i <= j < Size(v) && !AllFinite(Kid(v, j))
    ensures KidsFrom(v, i, budget, limits, depth).failure.LimitExceeded? ==>
              !(Affords(budget, TotalFrom(v, i)) && forall j: nat | i <= j < Size(v) :: WithinShape(Kid(v, j), limits, depth + 1))
    decreases v, 0, Size(v) - i
  {
    var first := SnapshotOf(Kid(v, i), budget, limits, depth + 1);
    if first.Rejected? {
      VerdictIsHonest(Kid(v, i), budget, limits, depth + 1);
    } else {
      SnapshotIsExact(Kid(v, i), budget, limits, depth + 1);
      KidsVerdict(v, i + 1, first.budget, limits, depth);
    }
  }

  /** The reason given is real: malformed only with a number that is not finite, a limit only with a limit exceeded. */
  lemma {:induction false} VerdictIsHonest(v: Value, budget: Budget, limits: Limits, depth: int)
    requires SnapshotOf(v, budget, limits, depth).Rejected?
    ensures SnapshotOf(v, budget, limits, depth).failure.Malformed? ==> !AllFinite(v)
    ensures SnapshotOf(v, budget, limits, depth).failure.LimitExceeded? ==>
              !(WithinShape(v, limits, depth) && Affords(budget, TotalOf(v)))
    decreases v, 1, 0
  {
    if IsContainer(v) && Opens(v, budget, limits, depth) {
      KidsVerdict(v, 0, Charge(v, budget), limits, depth);
    }
  }

  // ------------------------------------------------------------------ the message

  /** Only a record is a message. */
  function DataRecord(v: Value, limits: Limits): (r: Snapshot)
  {
    var snapshot := SnapshotOf(v, Budget(limits.maxTotalKeys, limits.maxTotalItems), limits, 0);
    if snapshot.Accepted? && !snapshot.copy.Record? then Rejected(Malformed) else snapshot
  }

  /** A record within the limits arrives as it was sent, and nothing else arrives. */
  lemma RecordArrivesUnchanged(v: Value, limits: Limits)
    ensures DataRecord(v, limits).Accepted? <==>
              v.Record? && Acceptable(v, Budget(limits.maxTotalKeys, limits.maxTotalItems), limits, 0)
    ensures DataRecord(v, limits).Accepted? ==> DataRecord(v, limits).copy == v
  {
    SnapshotIsExact(v, Budget(limits.maxTotalKeys, limits.maxTotalItems), limits, 0);
  }

  /** The decoder with its shared budget, decremented in place. */
  class Snapshotter {
    const limits: Limits
    var remainingKeys: nat
    var remainingItems: nat

    ghost function Remaining(): (r: Budget)
      reads this
    {
      Budget(remainingKeys, remainingItems)
    }

    constructor (limits: Limits)
      ensures this.limits == limits && Remaining() == Budget(limits.maxTotalKeys, limits.maxTotalItems)
    {
      this.limits, remainingKeys, remainingItems := limits, limits.maxTotalKeys, limits.maxTotalItems;
    }

    method SnapshotRecord(v: Value, depth: int) returns (r: Option<Value>, failure: Failure)
      requires v.Record? && depth <= limits.maxDepth
      modifies this
      ensures var spec := SnapshotOf(v, old(Remaining()), limits, depth);
              && (r.Some? <==> spec.Accepted?) && (r.Some? ==> spec == Accepted(r.value, Remaining()))
              && (r.None? ==> spec == Rejected(failure))
      decreases v, 1
    {
      failure := LimitExceeded;
      if |v.fields| > limits.maxRecordKeys || |v.fields| > remainingKeys {
        return None, LimitExceeded;
      }
      remainingKeys := remainingKeys - |v.fields|;
      var kids;
      kids, failure := SnapshotKids(v, depth);
      r := if kids.None? then None else Some(WithKids(v, kids.value));
    }

    method SnapshotArray(v: Value, depth: int) returns (r: Option<Value>, failure: Failure)
      requires v.List? && depth <= limits.maxDepth
      modifies this
      ensures var spec := SnapshotOf(v, old(Remaining()), limits, depth);
              && (r.Some? <==> spec.Accepted?) && (r.Some? ==> spec == Accepted(r.value, Remaining()))
              && (r.None? ==> spec == Rejected(failure))
      decreases v, 1
    {
      failure := LimitExceeded;
      if |v.items| > remainingItems || |v.items| > limits.maxArrayItems {
        return None, LimitExceeded;
      }
      remainingItems := remainingItems - |v.items|;
      var kids;
      kids, failure := SnapshotKids(v, depth);
      r := if kids.None? then None else Some(WithKids(v, kids.value));
    }

    /** The loop over a container's values; it stops at the first that is rejected. */
    method SnapshotKids(v: Value, depth: int) returns (r: Option<seq<Value>>, failure: Failure)
      requires IsContainer(v)
      modifies this
      ensures var spec := KidsFrom(v, 0, old(Remaining()), limits, depth);
              && (r.Some? <==> spec.KidsAccepted?) && (r.Some? ==> spec == KidsAccepted(r.value, Remaining()))
              && (r.None? ==> spec == KidsRejected(failure))
      decreases v, 0
    {
      failure := LimitExceeded;
      var copies: seq<Value> := [];
      var i := 0;
      ghost var spec := KidsFrom(v, 0, Remaining(), limits, depth);
      while i < Size(v)
        invariant i <= Size(v)
        invariant spec == Prepend(copies, KidsFrom(v, i, Remaining(), limits, depth))
      {
        ghost var told := copies;
        var child;
        child, failure := SnapshotValue(Kid(v, i), depth + 1);
        if child.None? {
          return None, failure;
        }
        copies := copies + [child.value];
        PrependTwice(told, child.value, KidsFrom(v, i + 1, Remaining(), limits, depth));
        i := i + 1;
      }
      assert copies + [] == copies;
      return Some(copies), failure;
    }

    method SnapshotValue(v: Value, depth: int) returns (r: Option<Value>, failure: Failure)
      modifies this
      ensures var spec := SnapshotOf(v, old(Remaining()), limits, depth);
              && (r.Some? <==> spec.Accepted?) && (r.Some? ==> spec == Accepted(r.value, Remaining()))
              && (r.None? ==> spec == Rejected(failure))
      decreases v, 2
    {
      failure := Malformed;
      if v.Number? {
        return if v.finite then Some(v) else None, Malformed;
      }
      if !IsContainer(v) {
        return Some(v), Malformed;
      }
      if depth > limits.maxDepth {
        return None, LimitExceeded;
      }
      if v.List? {
        r, failure := SnapshotArray(v, depth);
      } else {
        r, failure := SnapshotRecord(v, depth);
      }
    }
  }

  function Prepend(copies: seq<Value>, rest: KidsSnapshot): (r: KidsSnapshot)
  {
    if rest.KidsRejected? then rest else KidsAccepted(copies + rest.copies, rest.budget)
  }

  lemma PrependTwice(copies: seq<Value>, next: Value, rest: KidsSnapshot)
    ensures Prepend(copies, Prepend([next], rest)) == Prepend(copies + [next], rest)
  {
    if rest.KidsAccepted? {
      assert copies + ([next] + rest.copies) == (copies + [next]) + rest.copies;
    }
  }
}
