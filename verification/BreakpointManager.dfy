/** The store of desired breakpoints (src/sessions/BreakpointManager.ts).

    A session's bucket is a JavaScript `Map` from breakpoint id to record. Adapter evidence is positional, so the
    insertion order of that `Map` matters: a bucket is the sequence of its records in insertion order, with
    distinct ids. File paths are already resolved. */
module Breakpoints {
  import opened Basics

  /** A field of type `string | null | undefined`. */
  datatype Text = Absent | Null | Text(text: string)

  /** The fields no reconciler operation touches are kept together in `details`. */
  datatype BreakpointRecord = BreakpointRecord(
    id: string,
    file: string,
    line: int,
    column: Option<int>,
    condition: Text,
    hitCondition: Text,
    logMessage: Text,
    enabled: bool,
    temporary: bool,
    owner: string,
    details: string,
    verified: bool,
    message: Option<string>,
    adapterBreakpointId: Option<int>)

  datatype SourceReplacement = SourceReplacement(file: string, records: seq<BreakpointRecord>)

  type Bucket = seq<BreakpointRecord>

  ghost predicate UniqueIds(bucket: Bucket)
  {
    forall i, j | 0 <= i < j < |bucket| :: bucket[i].id != bucket[j].id
  }

  predicate HasId(bucket: Bucket, id: string)
  {
    exists i | 0 <= i < |bucket| :: bucket[i].id == id
  }

  function Find(bucket: Bucket, id: string): (r: Option<BreakpointRecord>)
    ensures r.Some? <==> HasId(bucket, id)
    ensures r.Some? ==> r.value in bucket && r.value.id == id
  {
    if bucket == [] then None
    else if bucket[0].id == id then
      assert bucket[0].id == id;
      Some(bucket[0])
    else
      assert forall i | 0 <= i < |bucket[1..]| :: bucket[1..][i] == bucket[i + 1];
      assert HasId(bucket, id) ==> HasId(bucket[1..], id) by {
        if HasId(bucket, id) {
          var i :| 0 <= i < |bucket| && bucket[i].id == id;
          assert bucket[1..][i - 1].id == id;
        }
      }
      Find(bucket[1..], id)
  }

  /** The records of one source, in insertion order. */
  function SourceList(bucket: Bucket, file: string): (r: Bucket)
  {
    if bucket == [] then []
    else if bucket[0].file == file then [bucket[0]] + SourceList(bucket[1..], file)
    else SourceList(bucket[1..], file)
  }

  /** The records of every source but the selected ones. */
  function Outside(bucket: Bucket, files: set<string>): (r: Bucket)
  {
    if bucket == [] then []
    else if bucket[0].file in files then Outside(bucket[1..], files)
    else [bucket[0]] + Outside(bucket[1..], files)
  }

  function Stamp(records: Bucket, file: string): (r: Bucket)
    ensures |r| == |records|
    ensures forall i | 0 <= i < |r| :: r[i] == records[i].(file := file)
  {
    seq(|records|, i requires 0 <= i < |records| => records[i].(file := file))
  }

  function Files(replacements: seq<SourceReplacement>): (r: set<string>)
    ensures forall i | 0 <= i < |replacements| :: replacements[i].file in r
  {
    set i | 0 <= i < |replacements| :: replacements[i].file
  }

  function Flatten(replacements: seq<SourceReplacement>): (r: Bucket)
  {
    if replacements == [] then []
    else Flatten(replacements[..|replacements| - 1]) + Stamp(replacements[|replacements| - 1].records, replacements[|replacements| - 1].file)
  }

  ghost predicate DistinctFiles(replacements: seq<SourceReplacement>)
  {
    forall i, j | 0 <= i < j < |replacements| :: replacements[i].file != replacements[j].file
  }

  predicate NoEmptyId(records: Bucket)
  {
    forall i | 0 <= i < |records| :: records[i].id != ""
  }

  /** No record to be installed carries the id of a record in an unselected source. */
  predicate NoForeignId(bucket: Bucket, records: Bucket, files: set<string>)
  {
    forall i, j | 0 <= i < |bucket| && 0 <= j < |records| && bucket[i].id == records[j].id :: bucket[i].file in files
  }

  /** The preflight of `replaceSources`: what must hold for it not to throw. */
  ghost predicate Admissible(bucket: Bucket, replacements: seq<SourceReplacement>)
  {
    && DistinctFiles(replacements)
    && GoodIds(Flatten(replacements))
    && NoForeignId(bucket, Flatten(replacements), Files(replacements))
  }

  ghost predicate GoodIds(records: Bucket)
  {
    NoEmptyId(records) && UniqueIds(records)
  }

  lemma GoodIdsOfPrefix(front: Bucket, whole: Bucket)
    requires front <= whole && GoodIds(whole)
    ensures GoodIds(front)
  {
  }

  /** The bucket a successful `replaceSources` installs. */
  function Replaced(bucket: Bucket, replacements: seq<SourceReplacement>): (r: Bucket)
  {
    Outside(bucket, Files(replacements)) + Flatten(replacements)
  }

  lemma {:induction false} SourceListConcat(a: Bucket, b: Bucket, file: string)
    ensures SourceList(a + b, file) == SourceList(a, file) + SourceList(b, file)
  {
    if a == [] {
      assert a + b == b;
    } else {
      SourceListConcat(a[1..], b, file);
      assert (a + b)[1..] == a[1..] + b && (a + b)[0] == a[0];
      assert [a[0]] + (SourceList(a[1..], file) + SourceList(b, file)) == ([a[0]] + SourceList(a[1..], file)) + SourceList(b, file);
    }
  }

  lemma {:induction false} OutsideConcat(a: Bucket, b: Bucket, files: set<string>)
    ensures Outside(a + b, files) == Outside(a, files) + Outside(b, files)
  {
    if a == [] {
      assert a + b == b;
    } else {
      OutsideConcat(a[1..], b, files);
      assert (a + b)[1..] == a[1..] + b && (a + b)[0] == a[0];
      assert [a[0]] + (Outside(a[1..], files) + Outside(b, files)) == ([a[0]] + Outside(a[1..], files)) + Outside(b, files);
    }
  }

  lemma {:induction false} SourceListMembers(bucket: Bucket, file: string)
    ensures forall r :: r in SourceList(bucket, file) <==> r in bucket && r.file == file
  {
    if bucket != [] {
      SourceListMembers(bucket[1..], file);
      assert bucket == [bucket[0]] + bucket[1..];
    }
  }

  lemma {:induction false} SourceListUnique(bucket: Bucket, file: string)
    requires UniqueIds(bucket)
    ensures UniqueIds(SourceList(bucket, file))
  {
    if bucket != [] {
      SourceListUnique(bucket[1..], file);
      SourceListMembers(bucket[1..], file);
    }
  }

  lemma {:induction false} OutsideMembers(bucket: Bucket, files: set<string>)
    ensures forall r :: r in Outside(bucket, files) <==> r in bucket && r.file !in files
  {
    if bucket != [] {
      OutsideMembers(bucket[1..], files);
      assert bucket == [bucket[0]] + bucket[1..];
    }
  }

  lemma OutsideIds(bucket: Bucket, files: set<string>, id: string)
    ensures HasId(Outside(bucket, files), id) ==> HasId(bucket, id)
  {
    OutsideMembers(bucket, files);
    var kept := Outside(bucket, files);
    if i :| 0 <= i < |kept| && kept[i].id == id {
      assert kept[i] in kept;
    }
  }

  lemma {:induction false} OutsideUnique(bucket: Bucket, files: set<string>)
    requires UniqueIds(bucket)
    ensures UniqueIds(Outside(bucket, files))
  {
    if bucket != [] {
      OutsideUnique(bucket[1..], files);
      OutsideMembers(bucket[1..], files);
    }
  }

  lemma {:induction false} SourceListOfOutside(bucket: Bucket, files: set<string>, file: string)
    ensures SourceList(Outside(bucket, files), file) == if file in files then [] else SourceList(bucket, file)
  {
    if bucket != [] {
      SourceListOfOutside(bucket[1..], files, file);
    }
  }

  lemma {:induction false} SourceListOfStamp(records: Bucket, own: string, file: string)
    ensures SourceList(Stamp(records, own), file) == if own == file then Stamp(records, own) else []
  {
    if records != [] {
      SourceListOfStamp(records[1..], own, file);
      assert Stamp(records, own)[1..] == Stamp(records[1..], own);
    }
  }

  lemma {:induction false} SourceListOfFlatten(replacements: seq<SourceReplacement>, file: string)
    requires DistinctFiles(replacements)
    ensures file !in Files(replacements) ==> SourceList(Flatten(replacements), file) == []
    ensures forall i | 0 <= i < |replacements| && replacements[i].file == file ::
              SourceList(Flatten(replacements), file) == Stamp(replacements[i].records, file)
  {
    if replacements != [] {
      var n := |replacements| - 1;
      SourceListOfFlatten(replacements[..n], file);
      SourceListConcat(Flatten(replacements[..n]), Stamp(replacements[n].records, replacements[n].file), file);
      SourceListOfStamp(replacements[n].records, replacements[n].file, file);
    }
  }

  /** A replacement installs exactly the given lists, in order, and leaves every other source alone. */
  lemma ReplacementIsExact(bucket: Bucket, replacements: seq<SourceReplacement>, file: string)
    requires DistinctFiles(replacements)
    ensures forall i | 0 <= i < |replacements| && replacements[i].file == file ::
              SourceList(Replaced(bucket, replacements), file) == Stamp(replacements[i].records, file)
    ensures file !in Files(replacements) ==> SourceList(Replaced(bucket, replacements), file) == SourceList(bucket, file)
  {
    SourceListConcat(Outside(bucket, Files(replacements)), Flatten(replacements), file);
    SourceListOfOutside(bucket, Files(replacements), file);
    SourceListOfFlatten(replacements, file);
  }

  /** A replacement keeps ids distinct over the whole session. */
  lemma ReplacementKeepsIdsUnique(bucket: Bucket, replacements: seq<SourceReplacement>)
    requires UniqueIds(bucket) && Admissible(bucket, replacements)
    ensures UniqueIds(Replaced(bucket, replacements))
  {
    var files := Files(replacements);
    OutsideUnique(bucket, files);
    OutsideMembers(bucket, files);
    forall i, j | 0 <= i < |Outside(bucket, files)| && 0 <= j < |Flatten(replacements)|
      ensures Outside(bucket, files)[i].id != Flatten(replacements)[j].id
    {
      var r := Outside(bucket, files)[i];
      assert r in Outside(bucket, files);
      var k :| 0 <= k < |bucket| && bucket[k] == r;
    }
  }

  /** Delete one key of the insertion-ordered map. */
  function Delete(bucket: Bucket, id: string): (r: Bucket)
  {
    if bucket == [] then []
    else if bucket[0].id == id then bucket[1..]
    else [bucket[0]] + Delete(bucket[1..], id)
  }

  /** Set one key: in place when the key exists, else at the end. */
  function Put(bucket: Bucket, record: BreakpointRecord): (r: Bucket)
  {
    if bucket == [] then [record]
    else if bucket[0].id == record.id then [record] + bucket[1..]
    else [bucket[0]] + Put(bucket[1..], record)
  }

  lemma {:induction false} DeleteInMiddle(before: Bucket, record: BreakpointRecord, after: Bucket)
    requires !HasId(before, record.id)
    ensures Delete(before + [record] + after, record.id) == before + after
  {
    var whole := before + [record] + after;
    if before == [] {
      assert whole == [record] + after;
      assert before + after == after;
    } else {
      assert before[0].id != record.id;
      assert forall i | 0 <= i < |before[1..]| :: before[1..][i] == before[i + 1];
      DeleteInMiddle(before[1..], record, after);
      assert whole[1..] == before[1..] + [record] + after;
      assert before + after == [before[0]] + (before[1..] + after);
    }
  }

  lemma {:induction false} PutAppends(bucket: Bucket, record: BreakpointRecord)
    requires !HasId(bucket, record.id)
    ensures Put(bucket, record) == bucket + [record]
  {
    if bucket != [] {
      assert bucket[0].id != record.id;
      assert forall i | 0 <= i < |bucket[1..]| :: bucket[1..][i] == bucket[i + 1];
      PutAppends(bucket[1..], record);
      assert bucket + [record] == [bucket[0]] + (bucket[1..] + [record]);
    }
  }

  lemma {:induction false} FlattenConcat(a: seq<SourceReplacement>, b: seq<SourceReplacement>)
    ensures Flatten(a + b) == Flatten(a) + Flatten(b)
  {
    if b == [] {
      assert a + b == a;
    } else {
      var n := |b| - 1;
      FlattenConcat(a, b[..n]);
      var last := Stamp(b[n].records, b[n].file);
      assert (a + b)[..|a + b| - 1] == a + b[..n] && (a + b)[|a + b| - 1] == b[n];
      assert Flatten(a + b) == (Flatten(a) + Flatten(b[..n])) + last;
      assert Flatten(b) == Flatten(b[..n]) + last;
    }
  }

  lemma DropStep(existing: Bucket, i: nat, selected: set<string>)
    requires UniqueIds(existing) && i < |existing|
    ensures var final := Outside(existing[..i], selected) + existing[i..];
            Outside(existing[..i + 1], selected) + existing[i + 1..]
            == if existing[i].file in selected then Delete(final, existing[i].id) else final
  {
    var kept := Outside(existing[..i], selected);
    Advance(kept, existing, i);
    OutsideConcat(existing[..i], [existing[i]], selected);
    if existing[i].file in selected {
      OutsideIds(existing[..i], selected, existing[i].id);
      DeleteInMiddle(kept, existing[i], existing[i + 1..]);
    }
  }

  lemma FilesStep(replacements: seq<SourceReplacement>, i: nat)
    requires i < |replacements| && DistinctFiles(replacements[..i])
    ensures Files(replacements[..i + 1]) == Files(replacements[..i]) + {replacements[i].file}
    ensures DistinctFiles(replacements[..i + 1]) <==> replacements[i].file !in Files(replacements[..i])
    ensures DistinctFiles(replacements) ==> DistinctFiles(replacements[..i + 1])
  {
    var front := replacements[..i + 1];
    assert front[i] == replacements[i];
    assert forall k | 0 <= k < i :: front[k] == replacements[..i][k];
  }

  lemma FlattenStep(replacements: seq<SourceReplacement>, i: nat)
    requires i < |replacements|
    ensures Flatten(replacements[..i + 1]) == Flatten(replacements[..i]) + Stamp(replacements[i].records, replacements[i].file)
  {
    assert replacements[..i + 1][..i] == replacements[..i];
  }

  lemma FlattenPrefix(replacements: seq<SourceReplacement>, i: nat)
    requires i <= |replacements|
    ensures Flatten(replacements[..i]) <= Flatten(replacements)
  {
    assert replacements == replacements[..i] + replacements[i..];
    FlattenConcat(replacements[..i], replacements[i..]);
  }

  class BreakpointManager {
    var bySession: map<string, Bucket>

    ghost predicate Valid()
      reads this
    {
      forall sessionId | sessionId in bySession :: UniqueIds(bySession[sessionId])
    }

    function BucketOf(sessionId: string): Bucket
      reads this
    {
      if sessionId in bySession then bySession[sessionId] else []
    }

    constructor ()
      ensures Valid() && bySession == map[]
    {
      bySession := map[];
    }

    method Get(sessionId: string, id: string) returns (record: Option<BreakpointRecord>)
      ensures record == Find(BucketOf(sessionId), id)
    {
      record := Find(BucketOf(sessionId), id);
    }

    method ListSource(sessionId: string, file: string) returns (records: Bucket)
      ensures records == SourceList(BucketOf(sessionId), file)
    {
      records := [];
      var bucket := BucketOf(sessionId);
      for i := 0 to |bucket|
        invariant records == SourceList(bucket[..i], file)
      {
        SourceListConcat(bucket[..i], [bucket[i]], file);
        assert bucket[..i + 1] == bucket[..i] + [bucket[i]];
        if bucket[i].file == file {
          records := records + [bucket[i]];
        }
      }
      assert bucket[..|bucket|] == bucket;
    }

    /** Check one source's records against the ids seen so far. */
    method PrepareRecords(records: Bucket, seen: Bucket) returns (ok: bool)
      requires GoodIds(seen)
      ensures ok <==> GoodIds(seen + records)
    {
      var ids := set r | r in seen :: r.id;
      for k := 0 to |records|
        invariant ids == set r | r in seen + records[..k] :: r.id
        invariant NoEmptyId(seen + records[..k]) && UniqueIds(seen + records[..k])
      {
        var all := seen + records;
        assert all[|seen| + k] == records[k] && all[..|seen| + k] == seen + records[..k];
        if records[k].id == "" {
          return false;
        }
        if records[k].id in ids {
          ghost var r :| r in seen + records[..k] && r.id == records[k].id;
          ghost var p :| 0 <= p < |seen| + k && all[..|seen| + k][p] == r;
          assert all[p].id == all[|seen| + k].id;
          return false;
        }
        assert seen + records[..k + 1] == seen + records[..k] + [records[k]];
        ids := ids + {records[k].id};
      }
      assert records[..|records|] == records;
      return true;
    }

    /** Resolve and check every replacement; the first violation makes the whole call throw. */
    method PrepareSourceReplacements(replacements: seq<SourceReplacement>) returns (ok: bool)
      ensures ok <==> DistinctFiles(replacements) && GoodIds(Flatten(replacements))
    {
      var sources: set<string> := {};
      var seen: Bucket := [];
      for i := 0 to |replacements|
        invariant sources == Files(replacements[..i])
        invariant seen == Flatten(replacements[..i])
        invariant DistinctFiles(replacements[..i])
        invariant GoodIds(seen)
      {
        var file := replacements[i].file;
        FilesStep(replacements, i);
        if file in sources {
          return false;
        }
        FlattenStep(replacements, i);
        FlattenPrefix(replacements, i + 1);
        var records := Stamp(replacements[i].records, file);
        var accepted := PrepareRecords(records, seen);
        if !accepted {
          if GoodIds(Flatten(replacements)) {
            GoodIdsOfPrefix(seen + records, Flatten(replacements));
          }
          return false;
        }
        sources := sources + {file};
        seen := seen + records;
      }
      assert replacements[..|replacements|] == replacements;
      return true;
    }

    /** Whether some record to install belongs to an unselected source. */
    method ConflictsWithOtherSource(bucket: Bucket, records: Bucket, selected: set<string>) returns (conflict: bool)
      ensures conflict <==> !NoForeignId(bucket, records, selected)
      requires UniqueIds(bucket)
    {
      for j := 0 to |records|
        invariant NoForeignId(bucket, records[..j], selected)
      {
        var existing := Find(bucket, records[j].id);
        if existing.Some? && existing.value.file !in selected {
          var i :| 0 <= i < |bucket| && bucket[i] == existing.value;
          return true;
        }
      }
      assert records[..|records|] == records;
      return false;
    }

    /** Iterate over the old entries, deleting those of a selected source from the new map. */
    method DropSources(existing: Bucket, selected: set<string>) returns (final: Bucket)
      requires UniqueIds(existing)
      ensures final == Outside(existing, selected)
    {
      final := existing;
      for i := 0 to |existing|
        invariant final == Outside(existing[..i], selected) + existing[i..]
      {
        DropStep(existing, i, selected);
        if existing[i].file in selected {
          final := Delete(final, existing[i].id);
        }
      }
      assert existing[..|existing|] == existing;
    }

    method Append(kept: Bucket, installed: Bucket) returns (final: Bucket)
      requires UniqueIds(kept + installed)
      ensures final == kept + installed
    {
      final := kept;
      for j := 0 to |installed|
        invariant final == kept + installed[..j]
      {
        var whole := kept + installed;
        assert whole[..|kept| + j] == final && whole[|kept| + j] == installed[j];
        assert !HasId(final, installed[j].id);
        PutAppends(final, installed[j]);
        final := Put(final, installed[j]);
      }
      assert installed[..|installed|] == installed;
    }

    method ReplaceSources(sessionId: string, replacements: seq<SourceReplacement>) returns (ok: bool)
      requires Valid()
      modifies this
      ensures Valid()
      ensures ok <==> Admissible(old(BucketOf(sessionId)), replacements)
      ensures bySession ==
              if ok && replacements != [] then
                old(bySession)[sessionId := Replaced(old(BucketOf(sessionId)), replacements)]
              else old(bySession)
    {
      ok := PrepareSourceReplacements(replacements);
      if !ok || |replacements| == 0 {
        return;
      }
      var selected := Files(replacements);
      var installed := Flatten(replacements);
      var existing := BucketOf(sessionId);
      var conflict := ConflictsWithOtherSource(existing, installed, selected);
      if conflict {
        return false;
      }
      var kept := DropSources(existing, selected);
      ReplacementKeepsIdsUnique(existing, replacements);
      var final := Append(kept, installed);
      bySession := bySession[sessionId := final];
    }
  }
}
