/**
 * The sub-record ledger shared by a profile's experience and education lists:
 * an ordered sequence of records, each with an id, newest first. Appending is
 * `Array.prototype.unshift`; removal by id is `indexOf` over the ids followed by
 * `splice(index, 1)`, including what that does when the id is not there.
 */
module Ledger {

  /** Sub-document ids are assigned by the persistence layer; here they are given values. */
  type RecordId = string

  datatype Entry<T> = Entry(id: RecordId, item: T)

  type Ledger<T> = seq<Entry<T>>

  /** The ids of the records, position by position (`ledger.map(item => item.id)`). */
  function Ids<T>(l: Ledger<T>): (r: seq<RecordId>)
    ensures |r| == |l|
    ensures forall i :: 0 <= i < |l| ==> r[i] == l[i].id
  {
    seq(|l|, i requires 0 <= i < |l| => l[i].id)
  }

  predicate UniqueIds<T>(l: Ledger<T>) {
    forall i, j :: 0 <= i < j < |l| ==> l[i].id != l[j].id
  }

  /**
   * `Array.prototype.indexOf` with strict equality: the position of the first
   * occurrence of `x`, or -1 when there is none.
   */
  function IndexOf<T(==)>(s: seq<T>, x: T): (r: int)
    ensures -1 <= r < |s|
    ensures r == -1 <==> x !in s
    ensures 0 <= r ==> s[r] == x && forall j :: 0 <= j < r ==> s[j] != x
    decreases |s|
  {
    if |s| == 0 then -1
    else if s[0] == x then 0
    else
      var k := IndexOf(s[1..], x);
      if k == -1 then -1 else k + 1
  }

  function Min(a: int, b: int): int { if a <= b then a else b }
  function Max(a: int, b: int): int { if a <= b then b else a }

  /**
   * The array left behind by `Array.prototype.splice(start, deleteCount)`: a
   * negative start counts back from the end, a start past the end is clamped to
   * the length, and the delete count is clamped to what is left after the start.
   */
  function Splice<T>(s: seq<T>, start: int, deleteCount: int): (r: seq<T>)
    ensures 0 <= start < |s| && deleteCount == 1 ==> r == s[..start] + s[start + 1..]
    ensures start == -1 && |s| > 0 && deleteCount == 1 ==> r == s[..|s| - 1]
    ensures |s| == 0 ==> r == []
    ensures |r| <= |s| && multiset(r) <= multiset(s)
  {
    var from := if start < 0 then Max(|s| + start, 0) else Min(start, |s|);
    var count := Min(Max(deleteCount, 0), |s| - from);
    assert s == s[..from] + s[from..from + count] + s[from + count..];
    s[..from] + s[from + count..]
  }

  /** `Array.prototype.unshift` of one record: it goes to the front, the rest keep their order. */
  function Unshift<T>(l: Ledger<T>, e: Entry<T>): (r: Ledger<T>)
    ensures |r| == |l| + 1 && r[0] == e && r[1..] == l
  {
    [e] + l
  }

  /** No record of the ledger carries `id`. */
  predicate Absent<T>(l: Ledger<T>, id: RecordId) {
    forall j :: 0 <= j < |l| ==> l[j].id != id
  }

  /** Position `p` holds the first record that carries `id`. */
  predicate FirstAt<T>(l: Ledger<T>, id: RecordId, p: int) {
    0 <= p < |l| && l[p].id == id && Absent(l[..p], id)
  }

  /** What `indexOf` over the ids finds: -1 when no record has the id, else its first position. */
  lemma IndexOfIds<T>(l: Ledger<T>, id: RecordId)
    ensures var p := IndexOf(Ids(l), id);
      (p == -1 && Absent(l, id)) || FirstAt(l, id, p)
  {
    var ids := Ids(l);
    var p := IndexOf(ids, id);
    if p == -1 {
      forall j | 0 <= j < |l| ensures l[j].id != id { assert ids[j] == l[j].id; }
    } else {
      forall j | 0 <= j < p ensures l[..p][j].id != id { assert ids[j] == l[j].id; }
    }
  }

  /**
   * Removal by id as the handlers write it. When some record has the id, the
   * first such record, and only it, is removed and the others keep their order.
   * When no record has it, the index is -1 and the LAST record is removed
   * instead; an empty ledger stays empty.
   */
  function RemoveById<T>(l: Ledger<T>, id: RecordId): (r: Ledger<T>)
    ensures forall p :: FirstAt(l, id, p) ==> r == l[..p] + l[p + 1..]
    ensures Absent(l, id) ==> r == (if |l| == 0 then l else l[..|l| - 1])
  {
    SpliceAtIndexOf(l, id);
    Splice(l, IndexOf(Ids(l), id), 1)
  }

  lemma SpliceAtIndexOf<T>(l: Ledger<T>, id: RecordId)
    ensures var r := Splice(l, IndexOf(Ids(l), id), 1);
      && (forall q :: FirstAt(l, id, q) ==> r == l[..q] + l[q + 1..])
      && (Absent(l, id) ==> r == (if |l| == 0 then l else l[..|l| - 1]))
  {
    IndexOfIds(l, id);
    var p := IndexOf(Ids(l), id);
    var r := Splice(l, p, 1);
    forall q | FirstAt(l, id, q) ensures r == l[..q] + l[q + 1..] {
      if p != -1 { FirstAtUnique(l, id, p, q); }
    }
  }

  /** At most one position is the first carrier of an id. */
  lemma FirstAtUnique<T>(l: Ledger<T>, id: RecordId, p: int, q: int)
    requires FirstAt(l, id, p) && FirstAt(l, id, q)
    ensures p == q
  {
  }

  /** Where a removal from a non-empty ledger cuts: the first carrier of the id, else the end. */
  lemma RemovalPoint<T>(l: Ledger<T>, id: RecordId) returns (k: nat)
    requires |l| > 0
    ensures k < |l| && RemoveById(l, id) == l[..k] + l[k + 1..]
    ensures FirstAt(l, id, k) || (Absent(l, id) && k == |l| - 1)
  {
    IndexOfIds(l, id);
    var p := IndexOf(Ids(l), id);
    if p == -1 {
      k := |l| - 1;
      assert l[..k] + l[k + 1..] == l[..|l| - 1];
    } else {
      k := p;
    }
  }

  /**
   * Removing an id whose first carrier sits at `p` shortens the ledger by
   * exactly one record, `l[p]`, and keeps every other record.
   */
  lemma RemovePresent<T>(l: Ledger<T>, id: RecordId, p: nat)
    requires FirstAt(l, id, p)
    ensures var r := RemoveById(l, id);
      && |r| == |l| - 1
      && r == l[..p] + l[p + 1..]
      && multiset(r) + multiset{l[p]} == multiset(l)
  {
    var k := RemovalPoint(l, id);
    if FirstAt(l, id, k) {
      FirstAtUnique(l, id, k, p);
    }
    DropMultiset(l, p);
  }

  /** Dropping the record at `k` takes exactly that record out of the multiset of records. */
  lemma DropMultiset<T>(l: Ledger<T>, k: nat)
    requires k < |l|
    ensures multiset(l[..k] + l[k + 1..]) + multiset{l[k]} == multiset(l)
  {
    assert l == l[..k] + [l[k]] + l[k + 1..];
  }

  /**
   * The hazard of the as-written removal: with an id nobody carries, a
   * non-empty ledger loses its last record.
   */
  lemma RemoveAbsentDropsLast<T>(l: Ledger<T>, id: RecordId)
    requires |l| > 0
    requires Absent(l, id)
    ensures RemoveById(l, id) == l[..|l| - 1]
    ensures RemoveById(l, id) != l
  {
    assert |RemoveById(l, id)| == |l| - 1;
  }

  /** A concrete instance: removing a missing id from `[E1, E2]` leaves `[E1]`, not `[E1, E2]`. */
  lemma RemoveMissingIdExample<T>(e1: T, e2: T)
    ensures RemoveById([Entry("e1", e1), Entry("e2", e2)], "nonexistent-id") == [Entry("e1", e1)]
  {
    var l := [Entry("e1", e1), Entry("e2", e2)];
    assert l[0].id == "e1" && l[1].id == "e2";
    assert "e1" != "nonexistent-id" && "e2" != "nonexistent-id";
    assert Absent(l, "nonexistent-id");
    assert l[..1] == [Entry("e1", e1)];
  }

  /** Removing by the id of a record just unshifted takes back exactly that record. */
  lemma RemoveUndoesUnshift<T>(l: Ledger<T>, e: Entry<T>)
    ensures RemoveById(Unshift(l, e), e.id) == l
  {
    var r := Unshift(l, e);
    assert FirstAt(r, e.id, 0);
    assert r[..0] + r[1..] == l;
  }

  /** Unshifting a record with a fresh id keeps the ids unique. */
  lemma UnshiftFreshKeepsUnique<T>(l: Ledger<T>, e: Entry<T>)
    requires UniqueIds(l)
    requires Absent(l, e.id)
    ensures UniqueIds(Unshift(l, e))
  {
    var r := Unshift(l, e);
    forall i, j | 0 <= i < j < |r| ensures r[i].id != r[j].id {
      if i == 0 {
        assert r[j] == l[j - 1];
      } else {
        assert r[i] == l[i - 1] && r[j] == l[j - 1];
      }
    }
  }

  /** Dropping one position of a ledger with unique ids leaves unique ids. */
  lemma DropKeepsUnique<T>(l: Ledger<T>, k: nat)
    requires UniqueIds(l) && k < |l|
    ensures UniqueIds(l[..k] + l[k + 1..])
  {
    var r := l[..k] + l[k + 1..];
    forall i, j | 0 <= i < j < |r| ensures r[i].id != r[j].id {
      var i' := if i < k then i else i + 1;
      var j' := if j < k then j else j + 1;
      assert r[i] == l[i'] && r[j] == l[j'];
    }
  }

  /** Removal keeps the ids unique: the remaining records are a sub-sequence. */
  lemma RemoveKeepsUnique<T>(l: Ledger<T>, id: RecordId)
    requires UniqueIds(l)
    ensures UniqueIds(RemoveById(l, id))
  {
    if |l| > 0 {
      var k := RemovalPoint(l, id);
      DropKeepsUnique(l, k);
    }
  }

  /**
   * Removal by id is not idempotent: with unique ids, a second removal with the
   * same id no longer finds it and drops the last remaining record.
   */
  lemma RemoveTwiceDropsLast<T>(l: Ledger<T>, id: RecordId)
    requires UniqueIds(l)
    requires !Absent(l, id)
    requires |l| >= 2
    ensures var once := RemoveById(l, id);
      RemoveById(once, id) == once[..|once| - 1]
  {
    var k := RemovalPoint(l, id);
    assert FirstAt(l, id, k);
    DropRemovesUniqueId(l, k);
    RemoveAbsentDropsLast(l[..k] + l[k + 1..], id);
  }

  /** With unique ids, dropping the record at `k` leaves no record with its id. */
  lemma DropRemovesUniqueId<T>(l: Ledger<T>, k: nat)
    requires UniqueIds(l) && k < |l|
    ensures Absent(l[..k] + l[k + 1..], l[k].id)
  {
    var r := l[..k] + l[k + 1..];
    forall j | 0 <= j < |r| ensures r[j].id != l[k].id {
      var j' := if j < k then j else j + 1;
      assert r[j] == l[j'];
    }
  }
}
