/** pkg/images/s3.go: the cache index kept in the bucket. */
module Index {
  import opened Wrappers
  import opened ObjectKeys
  import opened Ordering

  datatype Entry = Entry(ref: string, digest: string, prefix: string, files: seq<Rel>, blobs: seq<Rel>)

  const INDEX_VERSION := 2

  // Find: the first entry with the reference.
  function Find(entries: seq<Entry>, ref: string): (r: Option<Entry>)
    ensures r.Some? <==> exists e :: e in entries && e.ref == ref
    ensures r.Some? ==> r.value in entries && r.value.ref == ref
  {
    if entries == [] then None
    else if entries[0].ref == ref then Some(entries[0])
    else Find(entries[1..], ref)
  }

  // ---------- Upsert ----------

  function Others(entries: seq<Entry>, ref: string): seq<Entry> {
    if entries == [] then []
    else Others(entries[..|entries| - 1], ref) +
         (if entries[|entries| - 1].ref == ref then [] else [entries[|entries| - 1]])
  }

  ghost predicate SortedByRef(entries: seq<Entry>) {
    forall i, j :: 0 <= i < j < |entries| ==> Leq(entries[i].ref, entries[j].ref)
  }

  // The index after an upsert: sorted, every entry of another reference as
  // often as before, and the new entry once. sort.Slice is not stable, so the
  // order among equal references is left open.
  ghost predicate IsUpsert(before: seq<Entry>, entry: Entry, after: seq<Entry>) {
    SortedByRef(after) && multiset(after) == multiset(Others(before, entry.ref)) + multiset{entry}
  }

  class CacheIndex {
    var version: int
    var entries: seq<Entry>

    constructor (version: int, entries: seq<Entry>)
      ensures this.version == version && this.entries == entries
    {
      this.version, this.entries := version, entries;
    }

    method Upsert(entry: Entry)
      modifies this
      ensures version == old(version)
      ensures IsUpsert(old(entries), entry, entries)
    {
      var out := Replace(entries, entry);
      entries := SortByRef(out);
    }
  }

  // Upsert's loop: the new entry takes the place of the first one with its
  // reference, or goes last.
  method Replace(entries: seq<Entry>, entry: Entry) returns (out: seq<Entry>)
    ensures multiset(out) == multiset(Others(entries, entry.ref)) + multiset{entry}
  {
    out := [];
    var replaced := false;
    ghost var done: seq<Entry> := [];
    for i := 0 to |entries|
      invariant done == entries[..i]
      invariant multiset(out) == Kept(done, entry, replaced)
    {
      var e := entries[i];
      assert entries[..i + 1] == done + [e];
      OthersAppend(done, e, entry.ref);
      done := done + [e];
      if e.ref == entry.ref {
        if !replaced {
          out := out + [entry];
          replaced := true;
        }
      } else {
        KeptOne(done[..|done| - 1], e, entry, replaced);
        out := out + [e];
      }
    }
    assert done == entries;
    if !replaced {
      out := out + [entry];
    }
  }

  lemma KeptOne(done: seq<Entry>, e: Entry, entry: Entry, replaced: bool)
    requires e.ref != entry.ref
    ensures Kept(done + [e], entry, replaced) == Kept(done, entry, replaced) + multiset{e}
  {
    OthersAppend(done, e, entry.ref);
  }

  ghost function Kept(done: seq<Entry>, entry: Entry, replaced: bool): multiset<Entry> {
    multiset(Others(done, entry.ref)) + if replaced then multiset{entry} else multiset{}
  }

  lemma OthersAppend(done: seq<Entry>, e: Entry, ref: string)
    ensures Others(done + [e], ref) == Others(done, ref) + if e.ref == ref then [] else [e]
  {
    assert (done + [e])[..|done|] == done;
  }

  // sort.Slice with the order on Ref
  function InsertByRef(s: seq<Entry>, e: Entry): seq<Entry> {
    if s == [] || Less(e.ref, s[0].ref) then [e] + s
    else [s[0]] + InsertByRef(s[1..], e)
  }

  function SortByRef(s: seq<Entry>): (r: seq<Entry>)
    ensures SortedByRef(r) && multiset(r) == multiset(s)
  {
    if s == [] then []
    else
      var r := InsertByRef(SortByRef(s[..|s| - 1]), s[|s| - 1]);
      assert SortedByRef(r) && multiset(r) == multiset(s) by {
        InsertKeepsSorted(SortByRef(s[..|s| - 1]), s[|s| - 1]);
        assert s == s[..|s| - 1] + [s[|s| - 1]];
      }
      r
  }

  lemma {:induction false} InsertKeepsSorted(s: seq<Entry>, e: Entry)
    requires SortedByRef(s)
    ensures SortedByRef(InsertByRef(s, e))
    ensures multiset(InsertByRef(s, e)) == multiset(s) + multiset{e}
  {
    if s == [] {
    } else if Less(e.ref, s[0].ref) {
      LessTotal(e.ref, s[0].ref);
      forall j | 0 <= j < |s|
        ensures Leq(e.ref, s[j].ref)
      {
        LessTotal(s[0].ref, s[j].ref);
        LeqTransitive(e.ref, s[0].ref, s[j].ref);
      }
    } else {
      InsertKeepsSorted(s[1..], e);
      var tail := InsertByRef(s[1..], e);
      assert s == [s[0]] + s[1..];
      forall x | x in tail
        ensures Leq(s[0].ref, x.ref)
      {
        assert x in multiset(tail);
        if x != e {
          assert x in multiset(s[1..]);
        }
      }
    }
  }

  // ---------- What an upsert means to readers ----------

  lemma {:induction false} OthersAre(entries: seq<Entry>, ref: string)
    ensures forall x :: multiset(Others(entries, ref))[x] == if x.ref == ref then 0 else multiset(entries)[x]
  {
    if entries != [] {
      OthersAre(entries[..|entries| - 1], ref);
      assert entries == entries[..|entries| - 1] + [entries[|entries| - 1]];
    }
  }

  // No reference has two entries.
  ghost predicate UniqueRefs(entries: seq<Entry>) {
    && (forall x, y :: x in entries && y in entries && x.ref == y.ref ==> x == y)
    && (forall x :: multiset(entries)[x] <= 1)
  }

  // After an upsert the new entry is what readers find for its reference, and
  // every other reference reads as before.
  lemma UpsertReads(before: seq<Entry>, entry: Entry, after: seq<Entry>)
    requires IsUpsert(before, entry, after)
    ensures forall x :: x in after <==> x == entry || (x in before && x.ref != entry.ref)
    ensures Find(after, entry.ref) == Some(entry)
    ensures UniqueRefs(before) ==>
              UniqueRefs(after) && forall ref :: ref != entry.ref ==> Find(after, ref) == Find(before, ref)
  {
    OthersAre(before, entry.ref);
    UpsertMembers(before, entry, after);
    assert entry in after;
    if UniqueRefs(before) {
      forall ref | ref != entry.ref
        ensures Find(after, ref) == Find(before, ref)
      {
        OthersReadAsBefore(before, entry, after, ref);
      }
    }
  }

  lemma UpsertMembers(before: seq<Entry>, entry: Entry, after: seq<Entry>)
    requires multiset(after) == multiset(Others(before, entry.ref)) + multiset{entry}
    requires forall x :: multiset(Others(before, entry.ref))[x] == if x.ref == entry.ref then 0 else multiset(before)[x]
    ensures forall x :: x in after <==> x == entry || (x in before && x.ref != entry.ref)
  {
    forall x
      ensures x in after <==> x == entry || (x in before && x.ref != entry.ref)
    {
      assert x in after <==> multiset(after)[x] > 0;
      assert x in before <==> multiset(before)[x] > 0;
    }
  }

  lemma OthersReadAsBefore(before: seq<Entry>, entry: Entry, after: seq<Entry>, ref: string)
    requires forall x :: x in after <==> x == entry || (x in before && x.ref != entry.ref)
    requires forall x, y :: x in before && y in before && x.ref == y.ref ==> x == y
    requires ref != entry.ref
    ensures Find(after, ref) == Find(before, ref)
  {
    if Find(before, ref).Some? {
      assert Find(before, ref).value in after;
    }
  }
}
