/**
 * Ordered batch iteration. A sheet first reads the ordered list of record
 * identifiers, cuts it into consecutive chunks, fetches the full records of
 * each chunk in one query (which returns them in no particular order) and
 * sorts each fetched chunk back by the position of its identifier in the
 * chunk. The records are generic here: `pk` gives a record's identifier.
 */
module Batching {
  import opened Wrappers

  /** A database primary key. */
  type Id = int

  /** No identifier occurs twice. */
  ghost predicate Distinct(s: seq<Id>) {
    forall i, j :: 0 <= i < j < |s| ==> s[i] != s[j]
  }

  /** All chunks, joined back together. */
  function Flatten<T>(ss: seq<seq<T>>): seq<T> {
    if ss == [] then [] else ss[0] + Flatten(ss[1..])
  }

  /**
   * `chunked_iterable(s, n)`: consecutive, non-empty slices of `s` of length
   * `n`, the last one possibly shorter; together they are `s` again.
   */
  function Chunks<T>(s: seq<T>, n: nat): (r: seq<seq<T>>)
    requires n > 0
    ensures Flatten(r) == s
    ensures forall i :: 0 <= i < |r| ==> 0 < |r[i]| <= n
    ensures forall i :: 0 <= i < |r| - 1 ==> |r[i]| == n
    decreases |s|
  {
    if s == [] then []
    else if |s| <= n then [s]
    else
      var rest := Chunks(s[n..], n);
      assert ([s[..n]] + rest)[1..] == rest;
      assert s[..n] + s[n..] == s;
      [s[..n]] + rest
  }

  /** `s` restricted to the identifiers in `keep`, in the order of `s`. */
  function Filter(s: seq<Id>, keep: set<Id>): (r: seq<Id>)
    ensures forall x :: x in r <==> x in s && x in keep
  {
    if s == [] then [] else (if s[0] in keep then [s[0]] else []) + Filter(s[1..], keep)
  }

  /** `s.index(x)`: the position of the first `x` in `s`, `|s|` when absent. */
  function IndexOf(s: seq<Id>, x: Id): (i: nat)
    ensures i <= |s|
    ensures i < |s| <==> x in s
    ensures i < |s| ==> s[i] == x
    ensures forall j :: 0 <= j < i && j < |s| ==> s[j] != x
  {
    if s == [] then 0 else if s[0] == x then 0 else 1 + IndexOf(s[1..], x)
  }

  /** The identifiers of the records `recs`, in order. */
  function Pks<R>(recs: seq<R>, pk: R -> Id): (r: seq<Id>)
    ensures |r| == |recs|
    ensures forall k :: 0 <= k < |recs| ==> r[k] == pk(recs[k])
  {
    seq(|recs|, k requires 0 <= k < |recs| => pk(recs[k]))
  }

  /** The set of identifiers of the records `recs`. */
  ghost function PkSet<R>(recs: seq<R>, pk: R -> Id): set<Id> {
    set r | r in recs :: pk(r)
  }

  /** No two records share an identifier. */
  ghost predicate DistinctPks<R>(recs: seq<R>, pk: R -> Id) {
    forall i, j :: 0 <= i < j < |recs| ==> pk(recs[i]) != pk(recs[j])
  }

  /**
   * What the query `filter(id__in=chunk)` may return: records with
   * identifiers from the chunk, none twice, in any order, possibly not all.
   */
  ghost predicate ValidFetch<R>(recs: seq<R>, chunk: seq<Id>, pk: R -> Id) {
    DistinctPks(recs, pk) && forall k :: 0 <= k < |recs| ==> pk(recs[k]) in chunk
  }

  /**
   * The inputs of one sheet: unique identifiers `ids` and one fetch result
   * per chunk of size `n`.
   */
  ghost predicate FetchesFit<R>(ids: seq<Id>, n: nat, fetches: seq<seq<R>>, pk: R -> Id) {
    n > 0 && Distinct(ids) && |fetches| == |Chunks(ids, n)| &&
    forall i :: 0 <= i < |fetches| ==> ValidFetch(fetches[i], Chunks(ids, n)[i], pk)
  }

  /** The first record of `recs` with identifier `x`. */
  function FindById<R>(recs: seq<R>, pk: R -> Id, x: Id): (r: Option<R>)
    ensures r.Some? ==> r.value in recs && pk(r.value) == x
    ensures r.None? <==> forall k :: 0 <= k < |recs| ==> pk(recs[k]) != x
  {
    if recs == [] then None
    else if pk(recs[0]) == x then Some(recs[0])
    else FindById(recs[1..], pk, x)
  }

  /**
   * The fetched records of one chunk in chunk order: for each identifier of
   * the chunk, the record with that identifier, when one was fetched.
   */
  function Pick<R>(chunk: seq<Id>, recs: seq<R>, pk: R -> Id): (r: seq<R>)
    ensures forall k :: 0 <= k < |r| ==> r[k] in recs
  {
    if chunk == [] then []
    else
      (match FindById(recs, pk, chunk[0]) case Some(x) => [x] case None => []) + Pick(chunk[1..], recs, pk)
  }

  /** The records of all chunks, each chunk put back in chunk order. */
  function Restore<R>(chunks: seq<seq<Id>>, fetches: seq<seq<R>>, pk: R -> Id): seq<R>
    requires |fetches| == |chunks|
  {
    if chunks == [] then [] else Pick(chunks[0], fetches[0], pk) + Restore(chunks[1..], fetches[1..], pk)
  }

  /** The records of `recs` are listed in strictly increasing position within `chunk`. */
  ghost predicate SortedBy<R>(recs: seq<R>, chunk: seq<Id>, pk: R -> Id) {
    forall i, j :: 0 <= i < j < |recs| ==> IndexOf(chunk, pk(recs[i])) < IndexOf(chunk, pk(recs[j]))
  }

  /**
   * `sorted(fetched, key=lambda k: chunk.index(k.pk))`, as an insertion sort:
   * the fetched records of a chunk, put in chunk order.
   */
  method SortByIndex<R(==)>(fetched: seq<R>, chunk: seq<Id>, pk: R -> Id) returns (out: seq<R>)
    requires Distinct(chunk)
    requires ValidFetch(fetched, chunk, pk)
    ensures out == Pick(chunk, fetched, pk)
  {
    out := [];
    var k := 0;
    while k < |fetched|
      invariant 0 <= k <= |fetched|
      invariant forall r :: r in out <==> r in fetched[..k]
      invariant SortedBy(out, chunk, pk)
    {
      var x := fetched[k];
      var key := IndexOf(chunk, pk(x));
      var p := 0;
      while p < |out| && IndexOf(chunk, pk(out[p])) < key
        invariant 0 <= p <= |out|
        invariant forall i :: 0 <= i < p ==> IndexOf(chunk, pk(out[i])) < key
      {
        p := p + 1;
      }
      NotYetPlaced(fetched, chunk, pk, k, out);
      InsertKeepsSorted(out, p, x, chunk, pk);
      InsertMembers(out, p, fetched, k);
      out := out[..p] + [x] + out[p..];
      k := k + 1;
    }
    assert fetched[..k] == fetched;
    SortedFetchIsPick(fetched, chunk, pk, out);
  }

  /** The fetched records, rearranged into chunk order, are what Pick selects from them. */
  lemma SortedFetchIsPick<R>(fetched: seq<R>, chunk: seq<Id>, pk: R -> Id, out: seq<R>)
    requires Distinct(chunk) && ValidFetch(fetched, chunk, pk)
    requires forall r :: r in out <==> r in fetched
    requires SortedBy(out, chunk, pk)
    ensures out == Pick(chunk, fetched, pk)
  {
    forall r | r in out ensures pk(r) in chunk {
      var m :| 0 <= m < |fetched| && fetched[m] == r;
    }
    SortedIsPick(chunk, out, pk);
    forall x | x in chunk ensures FindById(out, pk, x) == FindById(fetched, pk, x) {
      SameMembersFind(out, fetched, pk, x);
    }
    PickAgree(chunk, out, fetched, pk);
  }

  /** Inserting the next fetched record makes the placed records those of one more fetched prefix. */
  lemma InsertMembers<R>(out: seq<R>, p: nat, fetched: seq<R>, k: nat)
    requires p <= |out| && k < |fetched|
    requires forall r :: r in out <==> r in fetched[..k]
    ensures forall r :: r in out[..p] + [fetched[k]] + out[p..] <==> r in fetched[..k + 1]
  {
    assert out == out[..p] + out[p..];
    assert fetched[..k + 1] == fetched[..k] + [fetched[k]];
  }

  /** The next fetched record has an identifier that no placed record has. */
  lemma NotYetPlaced<R>(fetched: seq<R>, chunk: seq<Id>, pk: R -> Id, k: nat, out: seq<R>)
    requires ValidFetch(fetched, chunk, pk) && k < |fetched|
    requires forall r :: r in out ==> r in fetched[..k]
    ensures forall i :: 0 <= i < |out| ==> IndexOf(chunk, pk(out[i])) != IndexOf(chunk, pk(fetched[k]))
  {
    forall i | 0 <= i < |out| ensures IndexOf(chunk, pk(out[i])) != IndexOf(chunk, pk(fetched[k])) {
      assert out[i] in out;
      var m :| 0 <= m < k && fetched[..k][m] == out[i];
      assert pk(fetched[m]) != pk(fetched[k]);
    }
  }

  /** Inserting a record at its place keeps a sequence in strictly increasing chunk position. */
  lemma InsertKeepsSorted<R>(out: seq<R>, p: nat, x: R, chunk: seq<Id>, pk: R -> Id)
    requires SortedBy(out, chunk, pk) && p <= |out|
    requires forall i :: 0 <= i < p ==> IndexOf(chunk, pk(out[i])) < IndexOf(chunk, pk(x))
    requires p < |out| ==> IndexOf(chunk, pk(out[p])) >= IndexOf(chunk, pk(x))
    requires forall i :: 0 <= i < |out| ==> IndexOf(chunk, pk(out[i])) != IndexOf(chunk, pk(x))
    ensures SortedBy(out[..p] + [x] + out[p..], chunk, pk)
  {
    var res := out[..p] + [x] + out[p..];
    var kx := IndexOf(chunk, pk(x));
    forall i, j | 0 <= i < j < |res| ensures IndexOf(chunk, pk(res[i])) < IndexOf(chunk, pk(res[j])) {
      var ki := if i < p then IndexOf(chunk, pk(out[i])) else if i == p then kx else IndexOf(chunk, pk(out[i - 1]));
      var kj := if j < p then IndexOf(chunk, pk(out[j])) else if j == p then kx else IndexOf(chunk, pk(out[j - 1]));
      assert res[i] == (if i < p then out[i] else if i == p then x else out[i - 1]);
      assert res[j] == (if j < p then out[j] else if j == p then x else out[j - 1]);
      if j > p {
        var kp := IndexOf(chunk, pk(out[p]));
        assert kx < kp;
        if j - 1 > p { assert kp < kj; }
        if i < p { assert ki < kx; } else if i > p { assert ki < kj; }
      }
    }
  }

  /** With distinct identifiers, a record is found by its own identifier. */
  lemma {:induction false} FindByIdDistinct<R>(recs: seq<R>, pk: R -> Id, k: nat)
    requires DistinctPks(recs, pk) && k < |recs|
    ensures FindById(recs, pk, pk(recs[k])) == Some(recs[k])
  {
    if k > 0 {
      assert pk(recs[0]) != pk(recs[k]);
      assert DistinctPks(recs[1..], pk) by {
        forall i, j | 0 <= i < j < |recs| - 1 ensures pk(recs[1..][i]) != pk(recs[1..][j]) {
          assert recs[1..][i] == recs[i + 1] && recs[1..][j] == recs[j + 1];
        }
      }
      FindByIdDistinct(recs[1..], pk, k - 1);
      assert recs[1..][k - 1] == recs[k];
    }
  }

  /** A sequence with the same members as one without repeated identifiers finds alike. */
  lemma SameMembersFind<R>(a: seq<R>, b: seq<R>, pk: R -> Id, x: Id)
    requires forall r :: r in a <==> r in b
    requires DistinctPks(b, pk)
    ensures FindById(a, pk, x) == FindById(b, pk, x)
  {
    var fa := FindById(a, pk, x);
    if fa.Some? {
      var k :| 0 <= k < |b| && b[k] == fa.value;
      FindByIdDistinct(b, pk, k);
    }
  }

  /** Pick only looks records up by identifier. */
  lemma {:induction false} PickAgree<R>(chunk: seq<Id>, a: seq<R>, b: seq<R>, pk: R -> Id)
    requires forall x :: x in chunk ==> FindById(a, pk, x) == FindById(b, pk, x)
    ensures Pick(chunk, a, pk) == Pick(chunk, b, pk)
  {
    if chunk != [] {
      PickAgree(chunk[1..], a, b, pk);
    }
  }

  /** The tail of a chunk without repetitions has none and lacks the head. */
  lemma DistinctTail(chunk: seq<Id>)
    requires Distinct(chunk) && chunk != []
    ensures Distinct(chunk[1..]) && chunk[0] !in chunk[1..]
  {
    var rest := chunk[1..];
    forall i, j | 0 <= i < j < |rest| ensures rest[i] != rest[j] {
      assert rest[i] == chunk[i + 1] && rest[j] == chunk[j + 1];
    }
  }

  /** Records that avoid the head of the chunk keep their order within its tail. */
  lemma ShiftSorted<R>(chunk: seq<Id>, out: seq<R>, pk: R -> Id)
    requires chunk != []
    requires forall k :: 0 <= k < |out| ==> pk(out[k]) in chunk && pk(out[k]) != chunk[0]
    requires SortedBy(out, chunk, pk)
    ensures forall r :: r in out ==> pk(r) in chunk[1..]
    ensures SortedBy(out, chunk[1..], pk)
  {
    forall k | 0 <= k < |out| ensures IndexOf(chunk, pk(out[k])) == 1 + IndexOf(chunk[1..], pk(out[k])) { }
  }

  /** Dropping the first record keeps a sequence sorted. */
  lemma SortedTail<R>(out: seq<R>, chunk: seq<Id>, pk: R -> Id)
    requires out != [] && SortedBy(out, chunk, pk)
    ensures SortedBy(out[1..], chunk, pk)
  {
    forall i, j | 0 <= i < j < |out| - 1
      ensures IndexOf(chunk, pk(out[1..][i])) < IndexOf(chunk, pk(out[1..][j]))
    {
      assert out[1..][i] == out[i + 1] && out[1..][j] == out[j + 1];
    }
  }

  /**
   * A sequence already in strictly increasing chunk position, with all its
   * identifiers in the chunk, is what Pick makes of it.
   */
  lemma {:induction false} SortedIsPick<R>(chunk: seq<Id>, out: seq<R>, pk: R -> Id)
    requires Distinct(chunk)
    requires forall r :: r in out ==> pk(r) in chunk
    requires SortedBy(out, chunk, pk)
    ensures out == Pick(chunk, out, pk)
    decreases |chunk|, 1
  {
    if chunk == [] {
      NothingOutsideEmpty(out, pk);
    } else {
      DistinctTail(chunk);
      if out != [] && pk(out[0]) == chunk[0] {
        SortedIsPickTaken(chunk, out, pk);
      } else {
        SortedIsPickSkipped(chunk, out, pk);
      }
    }
  }

  /** No record has its identifier in an empty chunk. */
  lemma NothingOutsideEmpty<R>(out: seq<R>, pk: R -> Id)
    requires forall r :: r in out ==> pk(r) in []
    ensures out == []
  {
    NonEmptyHasMember(out);
  }

  lemma NonEmptyHasMember<T>(s: seq<T>)
    ensures s != [] ==> exists x :: x in s
  {
    if s != [] {
      assert s[0] in s;
    }
  }

  /** SortedIsPick when the first record has the chunk's first identifier. */
  lemma {:induction false} SortedIsPickTaken<R>(chunk: seq<Id>, out: seq<R>, pk: R -> Id)
    requires chunk != [] && Distinct(chunk[1..]) && chunk[0] !in chunk[1..]
    requires out != [] && pk(out[0]) == chunk[0]
    requires forall r :: r in out ==> pk(r) in chunk
    requires SortedBy(out, chunk, pk)
    ensures out == Pick(chunk, out, pk)
    decreases |chunk|, 0
  {
    var tail := out[1..];
    TailWithinRest(chunk, out, pk);
    SortedIsPick(chunk[1..], tail, pk);
    forall y | y in chunk[1..] ensures FindById(out, pk, y) == FindById(tail, pk, y) { }
    PickAgree(chunk[1..], out, tail, pk);
    assert out == [out[0]] + tail;
  }

  /** After a record with the chunk's first identifier, sorted records have other identifiers of the chunk. */
  lemma TailAvoidsHead<R>(chunk: seq<Id>, out: seq<R>, pk: R -> Id)
    requires chunk != [] && out != [] && pk(out[0]) == chunk[0]
    requires forall r :: r in out ==> pk(r) in chunk
    requires SortedBy(out, chunk, pk)
    ensures forall k :: 0 <= k < |out[1..]| ==> pk(out[1..][k]) in chunk && pk(out[1..][k]) != chunk[0]
  {
    forall k | 0 <= k < |out[1..]| ensures pk(out[1..][k]) in chunk && pk(out[1..][k]) != chunk[0] {
      assert out[1..][k] == out[k + 1] && out[k + 1] in out;
      assert IndexOf(chunk, pk(out[0])) < IndexOf(chunk, pk(out[k + 1]));
    }
  }

  /** The records after the one with the chunk's first identifier are sorted within the rest of the chunk. */
  lemma TailWithinRest<R>(chunk: seq<Id>, out: seq<R>, pk: R -> Id)
    requires chunk != [] && out != [] && pk(out[0]) == chunk[0]
    requires forall r :: r in out ==> pk(r) in chunk
    requires SortedBy(out, chunk, pk)
    ensures forall r :: r in out[1..] ==> pk(r) in chunk[1..]
    ensures SortedBy(out[1..], chunk[1..], pk)
  {
    TailAvoidsHead(chunk, out, pk);
    SortedTail(out, chunk, pk);
    ShiftSorted(chunk, out[1..], pk);
  }

  /** SortedIsPick when no record has the chunk's first identifier. */
  lemma {:induction false} SortedIsPickSkipped<R>(chunk: seq<Id>, out: seq<R>, pk: R -> Id)
    requires chunk != [] && Distinct(chunk[1..]) && chunk[0] !in chunk[1..]
    requires out == [] || pk(out[0]) != chunk[0]
    requires forall r :: r in out ==> pk(r) in chunk
    requires SortedBy(out, chunk, pk)
    ensures out == Pick(chunk, out, pk)
    decreases |chunk|, 0
  {
    var c := chunk[0];
    forall k | 0 <= k < |out| ensures pk(out[k]) in chunk && pk(out[k]) != c {
      assert out[k] in out;
      if k > 0 {
        assert IndexOf(chunk, pk(out[0])) < IndexOf(chunk, pk(out[k]));
      }
    }
    ShiftSorted(chunk, out, pk);
    SortedIsPick(chunk[1..], out, pk);
  }

  lemma {:induction false} FilterAppend(a: seq<Id>, b: seq<Id>, keep: set<Id>)
    ensures Filter(a + b, keep) == Filter(a, keep) + Filter(b, keep)
  {
    if a == [] {
      assert a + b == b;
    } else {
      assert (a + b)[0] == a[0] && (a + b)[1..] == a[1..] + b;
      FilterAppend(a[1..], b, keep);
    }
  }

  /** Filtering only asks about the members of the sequence. */
  lemma {:induction false} FilterAgree(s: seq<Id>, keep: set<Id>, keep': set<Id>)
    requires forall k :: 0 <= k < |s| ==> (s[k] in keep <==> s[k] in keep')
    ensures Filter(s, keep) == Filter(s, keep')
  {
    if s != [] {
      assert forall k :: 0 <= k < |s[1..]| ==> s[1..][k] == s[k + 1];
      FilterAgree(s[1..], keep, keep');
    }
  }

  lemma {:induction false} FilterAll(s: seq<Id>, keep: set<Id>)
    requires forall k :: 0 <= k < |s| ==> s[k] in keep
    ensures Filter(s, keep) == s
  {
    if s != [] {
      assert forall k :: 0 <= k < |s[1..]| ==> s[1..][k] == s[k + 1];
      FilterAll(s[1..], keep);
      assert s == [s[0]] + s[1..];
    }
  }

  lemma {:induction false} DistinctFilter(s: seq<Id>, keep: set<Id>)
    requires Distinct(s)
    ensures Distinct(Filter(s, keep))
  {
    if s != [] {
      DistinctTail(s);
      DistinctFilter(s[1..], keep);
      var head := if s[0] in keep then [s[0]] else [];
      var r := head + Filter(s[1..], keep);
      forall i, j | 0 <= i < j < |r| ensures r[i] != r[j] {
        if head != [] && i == 0 {
          assert r[j] == Filter(s[1..], keep)[j - 1];
          assert r[j] in Filter(s[1..], keep);
        } else {
          var off := |head|;
          assert r[i] == Filter(s[1..], keep)[i - off] && r[j] == Filter(s[1..], keep)[j - off];
        }
      }
    }
  }

  lemma DistinctAppend(a: seq<Id>, b: seq<Id>)
    requires Distinct(a + b)
    ensures Distinct(a) && Distinct(b)
    ensures forall x :: x in a ==> x !in b
  {
    forall i, j | 0 <= i < j < |a| ensures a[i] != a[j] {
      assert (a + b)[i] == a[i] && (a + b)[j] == a[j];
    }
    forall i, j | 0 <= i < j < |b| ensures b[i] != b[j] {
      assert (a + b)[|a| + i] == b[i] && (a + b)[|a| + j] == b[j];
    }
    forall i, j | 0 <= i < |a| && 0 <= j < |b| ensures a[i] != b[j] {
      assert (a + b)[i] == a[i] && (a + b)[|a| + j] == b[j];
    }
  }

  lemma PksAppend<R>(a: seq<R>, b: seq<R>, pk: R -> Id)
    ensures Pks(a + b, pk) == Pks(a, pk) + Pks(b, pk)
  {
    var l, r := Pks(a + b, pk), Pks(a, pk) + Pks(b, pk);
    forall k | 0 <= k < |l| ensures l[k] == r[k] {
      if k < |a| { assert (a + b)[k] == a[k]; } else { assert (a + b)[k] == b[k - |a|]; }
    }
  }

  lemma PkSetAppend<R>(a: seq<R>, b: seq<R>, pk: R -> Id)
    ensures PkSet(a + b, pk) == PkSet(a, pk) + PkSet(b, pk)
  {
    forall x | x in PkSet(a + b, pk) ensures x in PkSet(a, pk) + PkSet(b, pk) {
      var r :| r in a + b && pk(r) == x;
    }
  }

  /** Pick keeps the chunk's order and drops exactly the identifiers that were not fetched. */
  lemma {:induction false} PickPks<R>(chunk: seq<Id>, recs: seq<R>, pk: R -> Id)
    ensures Pks(Pick(chunk, recs, pk), pk) == Filter(chunk, PkSet(recs, pk))
  {
    if chunk != [] {
      var found := FindById(recs, pk, chunk[0]);
      var head := match found case Some(x) => [x] case None => [];
      PickPks(chunk[1..], recs, pk);
      PksAppend(head, Pick(chunk[1..], recs, pk), pk);
      if found.Some? {
        assert chunk[0] in PkSet(recs, pk);
      }
    }
  }

  /** A record found for an identifier of the chunk is among the picked ones. */
  lemma {:induction false} PickHas<R>(chunk: seq<Id>, recs: seq<R>, pk: R -> Id, x: Id)
    requires x in chunk && FindById(recs, pk, x).Some?
    ensures FindById(recs, pk, x).value in Pick(chunk, recs, pk)
  {
    if chunk[0] != x {
      PickHas(chunk[1..], recs, pk, x);
    }
  }

  /** Nothing fetched for a chunk is lost, and nothing else turns up. */
  lemma PickMembers<R>(chunk: seq<Id>, recs: seq<R>, pk: R -> Id)
    requires ValidFetch(recs, chunk, pk)
    ensures forall r :: r in Pick(chunk, recs, pk) <==> r in recs
  {
    forall r | r in recs ensures r in Pick(chunk, recs, pk) {
      var k :| 0 <= k < |recs| && recs[k] == r;
      FindByIdDistinct(recs, pk, k);
      PickHas(chunk, recs, pk, pk(r));
    }
  }

  /** Every fetched identifier comes from some chunk. */
  lemma {:induction false} FetchedWithin<R>(chunks: seq<seq<Id>>, fetches: seq<seq<R>>, pk: R -> Id)
    requires |fetches| == |chunks|
    requires forall i :: 0 <= i < |fetches| ==> ValidFetch(fetches[i], chunks[i], pk)
    ensures forall x :: x in PkSet(Flatten(fetches), pk) ==> x in Flatten(chunks)
  {
    if chunks != [] {
      FetchedWithin(chunks[1..], fetches[1..], pk);
      PkSetAppend(fetches[0], Flatten(fetches[1..]), pk);
      forall x | x in PkSet(fetches[0], pk) ensures x in chunks[0] {
        var r :| r in fetches[0] && pk(r) == x;
        var k :| 0 <= k < |fetches[0]| && fetches[0][k] == r;
      }
    }
  }

  /**
   * Restoring chunk by chunk yields the identifiers of all chunks, in order,
   * restricted to those fetched, and exactly the fetched records.
   */
  lemma {:induction false} RestoreOrder<R>(chunks: seq<seq<Id>>, fetches: seq<seq<R>>, pk: R -> Id)
    requires |fetches| == |chunks|
    requires Distinct(Flatten(chunks))
    requires forall i :: 0 <= i < |fetches| ==> ValidFetch(fetches[i], chunks[i], pk)
    ensures Pks(Restore(chunks, fetches, pk), pk) == Filter(Flatten(chunks), PkSet(Flatten(fetches), pk))
    ensures forall r :: r in Restore(chunks, fetches, pk) <==> r in Flatten(fetches)
  {
    if chunks != [] {
      var c, cs, f, fs := chunks[0], chunks[1..], fetches[0], fetches[1..];
      DistinctAppend(c, Flatten(cs));
      assert forall i :: 0 <= i < |fs| ==> fs[i] == fetches[i + 1] && cs[i] == chunks[i + 1];
      RestoreOrder(cs, fs, pk);
      FetchedWithin(cs, fs, pk);
      PkSetAppend(f, Flatten(fs), pk);
      var all := PkSet(Flatten(fetches), pk);
      assert ValidFetch(f, c, pk) by { assert f == fetches[0] && c == chunks[0]; }
      forall x | x in PkSet(f, pk) ensures x in c {
        var r :| r in f && pk(r) == x;
        var k :| 0 <= k < |f| && f[k] == r;
      }
      FilterAgree(c, PkSet(f, pk), all);
      FilterAgree(Flatten(cs), PkSet(Flatten(fs), pk), all);
      PickPks(c, f, pk);
      PickMembers(c, f, pk);
      PksAppend(Pick(c, f, pk), Restore(cs, fs, pk), pk);
      FilterAppend(c, Flatten(cs), all);
    }
  }

  /**
   * The ordered batch iteration of a sheet: its records come out in the order
   * of `ids`, restricted to the identifiers some fetch returned, none twice,
   * every fetched record exactly once. When every identifier was fetched the
   * order is that of `ids` itself; no identifiers yield no records.
   */
  lemma OrderedFetch<R>(ids: seq<Id>, n: nat, fetches: seq<seq<R>>, pk: R -> Id)
    requires FetchesFit(ids, n, fetches, pk)
    ensures Pks(Restore(Chunks(ids, n), fetches, pk), pk) == Filter(ids, PkSet(Flatten(fetches), pk))
    ensures Distinct(Pks(Restore(Chunks(ids, n), fetches, pk), pk))
    ensures forall r :: r in Restore(Chunks(ids, n), fetches, pk) <==> r in Flatten(fetches)
    ensures (forall x :: x in ids ==> x in PkSet(Flatten(fetches), pk)) ==>
              Pks(Restore(Chunks(ids, n), fetches, pk), pk) == ids
    ensures ids == [] ==> Restore(Chunks(ids, n), fetches, pk) == []
  {
    RestoreOrder(Chunks(ids, n), fetches, pk);
    DistinctFilter(ids, PkSet(Flatten(fetches), pk));
    if forall x :: x in ids ==> x in PkSet(Flatten(fetches), pk) {
      FilterAll(ids, PkSet(Flatten(fetches), pk));
    }
  }

  /** Every part of a partition without repetitions has none. */
  lemma {:induction false} PartsDistinct(chunks: seq<seq<Id>>)
    requires Distinct(Flatten(chunks))
    ensures forall i :: 0 <= i < |chunks| ==> Distinct(chunks[i])
  {
    if chunks != [] {
      DistinctAppend(chunks[0], Flatten(chunks[1..]));
      PartsDistinct(chunks[1..]);
      assert forall i :: 1 <= i < |chunks| ==> chunks[i] == chunks[1..][i - 1];
    }
  }

  /** The chunks of a list without repetitions have none. */
  lemma ChunksDistinct(ids: seq<Id>, n: nat)
    requires n > 0 && Distinct(ids)
    ensures forall i :: 0 <= i < |Chunks(ids, n)| ==> Distinct(Chunks(ids, n)[i])
  {
    PartsDistinct(Chunks(ids, n));
  }

  /** Restoring from chunk `c` on starts with chunk `c`. */
  lemma RestoreStep<R>(chunks: seq<seq<Id>>, fetches: seq<seq<R>>, pk: R -> Id, c: nat)
    requires |fetches| == |chunks| && c < |chunks|
    ensures Restore(chunks[c..], fetches[c..], pk) ==
              Pick(chunks[c], fetches[c], pk) + Restore(chunks[c + 1..], fetches[c + 1..], pk)
  {
    assert chunks[c..][1..] == chunks[c + 1..] && fetches[c..][1..] == fetches[c + 1..];
  }
}
