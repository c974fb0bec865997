/**
 Equality of two display lists: records that allow it are compared lazily, in
 bulk ranges of raw bytes, instead of one by one.
 */
module DisplayListCompare {

  /** The answer of a record type's own `equals`. */
  datatype Comparison = UseBulkCompare | NotEqual | Equal

  /** The raw storage of a list: record `i` occupies the bytes from `offsets[i]`
      to the next offset (or the end), and has type `types[i]`. */
  datatype OpStore = OpStore(bytes: seq<bv8>, offsets: seq<nat>, types: seq<nat>) {

    /** Push appends every record at the end of the storage. */
    ghost predicate Valid() {
      && |types| == |offsets|
      && (if offsets == [] then bytes == [] else offsets[0] == 0)
      && (forall i, j :: 0 <= i < j < |offsets| ==> offsets[i] < offsets[j])
      && (forall i :: 0 <= i < |offsets| ==> offsets[i] < |bytes|)
    }

    /** Where record `i` starts; the record after the last starts at the end. */
    function Start(i: nat): nat {
      if i < |offsets| then offsets[i] else |bytes|
    }
  }

  ghost predicate SameTable(a: OpStore, b: OpStore) {
    a.Valid() && b.Valid() && a.offsets == b.offsets && |a.bytes| == |b.bytes|
  }

  /** The bytes from record `i` up to record `j` are the same in both stores. */
  ghost predicate SameBytes(a: OpStore, b: OpStore, i: nat, j: nat)
    requires SameTable(a, b) && i <= j <= |a.offsets|
  {
    a.bytes[a.Start(i)..a.Start(j)] == b.bytes[b.Start(i)..b.Start(j)]
  }

  ghost predicate SameRecord(a: OpStore, b: OpStore, i: nat)
    requires SameTable(a, b) && i < |a.offsets|
  {
    SameBytes(a, b, i, i + 1)
  }

  /** Comparing record by record: the same type, and judged equal or byte-identical. */
  ghost predicate RecordsAgree(a: OpStore, b: OpStore, equals: nat -> Comparison, i: nat)
    requires SameTable(a, b) && i < |a.offsets|
  {
    && a.types[i] == b.types[i]
    && (equals(i) == Equal || (equals(i) == UseBulkCompare && SameRecord(a, b, i)))
  }

  /** A bulk range agrees exactly when every record in it does. */
  lemma {:induction false} BulkIsRecordwise(a: OpStore, b: OpStore, i: nat, j: nat)
    requires SameTable(a, b) && i <= j <= |a.offsets|
    ensures SameBytes(a, b, i, j) <==> forall k :: i <= k < j ==> SameRecord(a, b, k)
    decreases j - i
  {
    if i < j {
      BulkIsRecordwise(a, b, i, j - 1);
      var s, m, e := a.Start(i), a.Start(j - 1), a.Start(j);
      SplitRange(a.bytes, b.bytes, s, m, e);
      assert SameBytes(a, b, i, j) <==> SameBytes(a, b, i, j - 1) && SameRecord(a, b, j - 1);
    }
  }

  lemma SplitRange(a: seq<bv8>, b: seq<bv8>, s: nat, m: nat, e: nat)
    requires s <= m <= e <= |a| == |b|
    ensures a[s..e] == b[s..e] <==> a[s..m] == b[s..m] && a[m..e] == b[m..e]
  {
    assert a[s..e] == a[s..m] + a[m..e] && b[s..e] == b[s..m] + b[m..e];
    assert a[s..m] == a[s..e][..m - s] && b[s..m] == b[s..e][..m - s];
    assert a[m..e] == a[s..e][m - s..] && b[m..e] == b[s..e][m - s..];
  }

  /** Everything before record `waiting` is settled; what follows up to `i` awaits a bulk comparison. */
  ghost predicate Settled(a: OpStore, b: OpStore, equals: nat -> Comparison, waiting: nat, i: nat)
    requires SameTable(a, b)
  {
    && waiting <= i <= |a.offsets|
    && (forall k :: 0 <= k < waiting ==> RecordsAgree(a, b, equals, k))
    && (forall k :: waiting <= k < i ==> a.types[k] == b.types[k] && equals(k) == UseBulkCompare)
  }

  lemma BulkSettles(a: OpStore, b: OpStore, equals: nat -> Comparison, waiting: nat, i: nat)
    requires SameTable(a, b) && Settled(a, b, equals, waiting, i)
    ensures SameBytes(a, b, waiting, i) <==> forall k :: waiting <= k < i ==> RecordsAgree(a, b, equals, k)
  {
    BulkIsRecordwise(a, b, waiting, i);
    forall k | waiting <= k < i
      ensures RecordsAgree(a, b, equals, k) <==> SameRecord(a, b, k)
    {
    }
  }

  method CompareOps(a: OpStore, b: OpStore, equals: nat -> Comparison) returns (same: bool)
    requires SameTable(a, b)
    ensures same <==> forall i :: 0 <= i < |a.offsets| ==> RecordsAgree(a, b, equals, i)
  {
    hide RecordsAgree;
    var bulkStart := 0;
    ghost var waiting: nat := 0;
    for i := 0 to |a.offsets|
      invariant Settled(a, b, equals, waiting, i)
      invariant bulkStart == a.Start(waiting)
    {
      var offset := a.offsets[i];
      NecessaryForAgreement(a, b, equals, i);
      if a.types[i] != b.types[i] {
        return false;
      }
      match equals(i) {
        case NotEqual =>
          return false;
        case UseBulkCompare =>
        case Equal =>
          BulkSettles(a, b, equals, waiting, i);
          if bulkStart < offset {
            if a.bytes[bulkStart..offset] != b.bytes[bulkStart..offset] {
              return false;
            }
          }
          bulkStart := if i + 1 < |a.offsets| then a.offsets[i + 1] else |a.bytes|;
          waiting := i + 1;
      }
    }
    BulkSettles(a, b, equals, waiting, |a.offsets|);
    if bulkStart < |a.bytes| {
      assert a.bytes[bulkStart..] == a.bytes[bulkStart..|a.bytes|]
        && b.bytes[bulkStart..] == b.bytes[bulkStart..|a.bytes|];
      if a.bytes[bulkStart..] != b.bytes[bulkStart..] {
        return false;
      }
    }
    return true;
  }

  lemma NecessaryForAgreement(a: OpStore, b: OpStore, equals: nat -> Comparison, i: nat)
    requires SameTable(a, b) && i < |a.offsets|
    ensures RecordsAgree(a, b, equals, i) ==> a.types[i] == b.types[i] && equals(i) != NotEqual
    ensures a.types[i] == b.types[i] && equals(i) == Equal ==> RecordsAgree(a, b, equals, i)
  {
  }
}
