/**
  Documents of the document store and the operations the controllers use on one
  collection: look-up by `_id`, `findOne` (first match in natural order), `deleteOne`,
  `deleteMany`, `countDocuments` and `findByIdAndUpdate`.

  A collection is a sequence of documents in insertion (natural) order.
 */
module Docs {
  import opened Wrappers

  /** A document identifier (an ObjectId). Identifiers are only compared for equality;
      fresh ones come from the store's counter. */
  type Id = nat

  /** GeoJSON point coordinates `[longitude, latitude]`, kept abstract as a pair of reals. */
  datatype Coord = Coord(lon: real, lat: real)

  /** `[0, 0]`, the coordinates used when nothing better is known. */
  const ORIGIN: Coord := Coord(0.0, 0.0)

  predicate IsOrigin(c: Coord) {
    c.lon == 0.0 && c.lat == 0.0
  }

  /** A stored document: its `_id`, the `createdAt` timestamp set on insertion, and its fields. */
  datatype Doc<T> = Doc(id: Id, createdAt: int, body: T)

  // ---------------------------------------------------------------------------
  // Well-formed collections
  // ---------------------------------------------------------------------------

  predicate UniqueIds<T(==,!new)>(s: seq<Doc<T>>) {
    forall i, j :: 0 <= i < j < |s| ==> s[i].id != s[j].id
  }

  predicate IdsBelow<T(==,!new)>(s: seq<Doc<T>>, bound: nat) {
    forall d :: d in s ==> d.id < bound
  }

  /** No identifier is used twice, and every identifier is below the store's next fresh one. */
  predicate WellFormed<T(==,!new)>(s: seq<Doc<T>>, bound: nat) {
    UniqueIds(s) && IdsBelow(s, bound)
  }

  /** Every document of the collection passes the schema check `valid`. */
  predicate AllSatisfy<T(==,!new)>(s: seq<Doc<T>>, valid: T -> bool) {
    forall d :: d in s ==> valid(d.body)
  }

  lemma WellFormedGrow<T(!new)>(s: seq<Doc<T>>, bound: nat, bound': nat)
    requires WellFormed(s, bound) && bound <= bound'
    ensures WellFormed(s, bound')
  {
  }

  lemma WellFormedAppend<T(!new)>(s: seq<Doc<T>>, d: Doc<T>, bound: nat)
    requires WellFormed(s, bound) && d.id == bound
    ensures WellFormed(s + [d], bound + 1)
  {
    var t := s + [d];
    forall i, j | 0 <= i < j < |t| ensures t[i].id != t[j].id {
      if j == |s| {
        assert t[i] in s;
      }
    }
  }

  // ---------------------------------------------------------------------------
  // findOne / findById
  // ---------------------------------------------------------------------------

  /** The position of the first element satisfying `p`, as `findOne` returns the first
      match in natural order. */
  function FirstIndex<T(==,!new)>(s: seq<T>, p: T -> bool): (r: Option<nat>)
    ensures r.Some? ==> r.value < |s| && p(s[r.value])
    ensures r.Some? ==> forall j :: 0 <= j < r.value ==> !p(s[j])
    ensures r.None? ==> forall j :: 0 <= j < |s| ==> !p(s[j])
  {
    if |s| == 0 then None
    else if p(s[0]) then Some(0)
    else match FirstIndex(s[1..], p)
      case None => None
      case Some(i) => Some(i + 1)
  }

  /** The first element satisfying `p`, if any. */
  function FindFirst<T(==,!new)>(s: seq<T>, p: T -> bool): (r: Option<T>)
    ensures r.Some? ==> r.value in s && p(r.value)
    ensures r.None? <==> forall x :: x in s ==> !p(x)
  {
    match FirstIndex(s, p)
    case None => None
    case Some(i) => Some(s[i])
  }

  /** `findById`: the document with identifier `id`, if any. */
  function FindById<T(==,!new)>(s: seq<Doc<T>>, id: Id): (r: Option<Doc<T>>)
    ensures r.Some? ==> r.value in s && r.value.id == id
    ensures r.None? <==> forall d :: d in s ==> d.id != id
  {
    if |s| == 0 then None
    else if s[0].id == id then Some(s[0])
    else FindById(s[1..], id)
  }

  lemma FindByIdUnique<T(!new)>(s: seq<Doc<T>>, i: nat)
    requires UniqueIds(s) && i < |s|
    ensures FindById(s, s[i].id) == Some(s[i])
  {
    if i > 0 {
      assert s[0].id != s[i].id;
      FindByIdUnique(s[1..], i - 1);
    }
  }

  // ---------------------------------------------------------------------------
  // deleteOne / deleteMany
  // ---------------------------------------------------------------------------

  /** `deleteOne({ _id: id })` / `findByIdAndDelete(id)`. */
  function RemoveById<T(==,!new)>(s: seq<Doc<T>>, id: Id): (r: seq<Doc<T>>)
    ensures forall d :: d in r <==> d in s && d.id != id
    ensures |r| <= |s|
  {
    if |s| == 0 then []
    else if s[0].id == id then RemoveById(s[1..], id)
    else [s[0]] + RemoveById(s[1..], id)
  }

  /** `deleteMany`: keeps, in order, the documents for which `keep` holds. */
  function Filter<T(==,!new)>(s: seq<T>, keep: T -> bool): (r: seq<T>)
    ensures forall x :: x in r <==> x in s && keep(x)
    ensures |r| <= |s|
  {
    if |s| == 0 then []
    else if keep(s[0]) then [s[0]] + Filter(s[1..], keep)
    else Filter(s[1..], keep)
  }

  lemma {:induction false} RemoveByIdWellFormed<T(!new)>(s: seq<Doc<T>>, id: Id, bound: nat)
    requires WellFormed(s, bound)
    ensures WellFormed(RemoveById(s, id), bound)
  {
    if |s| > 0 {
      RemoveByIdWellFormed(s[1..], id, bound);
      var r := RemoveById(s, id);
      if s[0].id != id {
        forall j | 0 < j < |r| ensures r[0].id != r[j].id {
          assert r[j] in RemoveById(s[1..], id);
          var k :| 0 <= k < |s[1..]| && s[1..][k] == r[j];
          assert s[k + 1] == r[j];
        }
      }
    }
  }

  lemma {:induction false} FilterWellFormed<T(!new)>(s: seq<Doc<T>>, keep: Doc<T> -> bool, bound: nat)
    requires WellFormed(s, bound)
    ensures WellFormed(Filter(s, keep), bound)
  {
    if |s| > 0 {
      FilterWellFormed(s[1..], keep, bound);
      var r := Filter(s, keep);
      if keep(s[0]) {
        forall j | 0 < j < |r| ensures r[0].id != r[j].id {
          assert r[j] in Filter(s[1..], keep);
          var k :| 0 <= k < |s[1..]| && s[1..][k] == r[j];
          assert s[k + 1] == r[j];
        }
      }
    }
  }

  /** With unique identifiers, deleting an existing `_id` removes exactly one document. */
  lemma RemoveByIdRemovesOne<T(!new)>(s: seq<Doc<T>>, i: nat)
    requires UniqueIds(s) && i < |s|
    ensures |RemoveById(s, s[i].id)| == |s| - 1
    ensures multiset(RemoveById(s, s[i].id)) == multiset(s) - multiset{s[i]}
  {
    RemoveByIdSplit(s, i);
    var a, b := s[..i], s[i + 1..];
    assert s == a + [s[i]] + b;
    assert multiset(s) == multiset(a) + multiset{s[i]} + multiset(b);
    assert multiset(a + b) == multiset(a) + multiset(b);
  }

  /** Deleting the `_id` of position `i` cuts out exactly that position. */
  lemma {:induction false} RemoveByIdSplit<T(!new)>(s: seq<Doc<T>>, i: nat)
    requires UniqueIds(s) && i < |s|
    ensures RemoveById(s, s[i].id) == s[..i] + s[i + 1..]
  {
    UniqueTail(s);
    if i == 0 {
      RemoveByIdAbsent(s[1..], s[0].id);
      assert s[..0] + s[1..] == s[1..];
    } else {
      assert s[1..][i - 1] == s[i] && s[0].id != s[i].id;
      RemoveByIdSplit(s[1..], i - 1);
      CutAfterHead(s, i, RemoveById(s[1..], s[i].id));
    }
  }

  /** Cutting position `i - 1` out of the tail and putting the head back cuts position `i`. */
  lemma CutAfterHead<T>(s: seq<T>, i: nat, r: seq<T>)
    requires 0 < i < |s| && r == s[1..][..i - 1] + s[1..][i..]
    ensures [s[0]] + r == s[..i] + s[i + 1..]
  {
    assert s[..i] == [s[0]] + s[1..][..i - 1] && s[i + 1..] == s[1..][i..];
  }

  /** Deleting a stored `_id` whose document a filter keeps shortens the filtered list by one. */
  lemma {:induction false} FilterRemoveCount<T(!new)>(s: seq<Doc<T>>, id: Id, keep: Doc<T> -> bool)
    requires UniqueIds(s) && FindById(s, id).Some? && keep(FindById(s, id).value)
    ensures |Filter(RemoveById(s, id), keep)| == |Filter(s, keep)| - 1
  {
    var t := s[1..];
    UniqueTail(s);
    if s[0].id == id {
      RemoveByIdAbsent(t, id);
    } else {
      FilterRemoveCount(t, id, keep);
      var rs := RemoveById(s, id);
      assert rs == [s[0]] + RemoveById(t, id);
      assert rs[0] == s[0] && rs[1..] == RemoveById(t, id);
    }
  }

  /** Deleting an `_id` none of whose documents a filter keeps leaves the filtered list alone. */
  lemma {:induction false} FilterRemoveOther<T(!new)>(s: seq<Doc<T>>, id: Id, keep: Doc<T> -> bool)
    requires forall d :: d in s && d.id == id ==> !keep(d)
    ensures Filter(RemoveById(s, id), keep) == Filter(s, keep)
  {
    if |s| > 0 {
      var t := s[1..];
      assert forall d :: d in t ==> d in s;
      FilterRemoveOther(t, id, keep);
      if s[0].id != id {
        var rs := RemoveById(s, id);
        assert rs == [s[0]] + RemoveById(t, id);
        assert rs[0] == s[0] && rs[1..] == RemoveById(t, id);
      }
    }
  }

  /** The tail of a list with distinct ids has distinct ids, none of them the head's. */
  lemma UniqueTail<T(!new)>(s: seq<Doc<T>>)
    requires UniqueIds(s) && |s| > 0
    ensures UniqueIds(s[1..])
    ensures forall d :: d in s[1..] ==> d.id != s[0].id
  {
    var t := s[1..];
    forall a, b | 0 <= a < b < |t| ensures t[a].id != t[b].id {
      assert t[a] == s[a + 1] && t[b] == s[b + 1];
    }
    forall d | d in t ensures d.id != s[0].id {
      var j :| 0 <= j < |t| && t[j] == d;
      assert s[j + 1] == d;
    }
  }

  lemma {:induction false} RemoveByIdAbsent<T(!new)>(s: seq<Doc<T>>, id: Id)
    requires forall d :: d in s ==> d.id != id
    ensures RemoveById(s, id) == s
  {
    if |s| > 0 {
      assert s[0] in s;
      RemoveByIdAbsent(s[1..], id);
    }
  }

  /** `Array.prototype.map`. */
  function MapSeq<A, B>(s: seq<A>, f: A -> B): (r: seq<B>)
    ensures |r| == |s| && forall i :: 0 <= i < |s| ==> r[i] == f(s[i])
  {
    seq(|s|, i requires 0 <= i < |s| => f(s[i]))
  }

  // ---------------------------------------------------------------------------
  // findByIdAndUpdate
  // ---------------------------------------------------------------------------

  /** Replaces the document whose `_id` is `d.id` by `d`; a missing `_id` changes nothing. */
  function Replace<T(==,!new)>(s: seq<Doc<T>>, d: Doc<T>): (r: seq<Doc<T>>)
    ensures |r| == |s|
    ensures forall i :: 0 <= i < |s| ==> r[i] == (if s[i].id == d.id then d else s[i])
  {
    seq(|s|, i requires 0 <= i < |s| => if s[i].id == d.id then d else s[i])
  }

  /** After a replacement, looking up the replaced `_id` finds the new document, and every
      other look-up is unchanged. */
  lemma {:induction false} FindByIdReplace<T(!new)>(s: seq<Doc<T>>, d: Doc<T>, q: Id)
    ensures FindById(Replace(s, d), q) == if q == d.id && FindById(s, q).Some? then Some(d) else FindById(s, q)
  {
    if |s| > 0 {
      assert Replace(s, d) == [Replace(s, d)[0]] + Replace(s[1..], d);
      FindByIdReplace(s[1..], d, q);
    }
  }

  lemma ReplaceWellFormed<T(!new)>(s: seq<Doc<T>>, d: Doc<T>, bound: nat)
    requires WellFormed(s, bound)
    ensures WellFormed(Replace(s, d), bound)
  {
    var r := Replace(s, d);
    forall x | x in r ensures x.id < bound {
      var i :| 0 <= i < |r| && r[i] == x;
    }
  }

  // ---------------------------------------------------------------------------
  // countDocuments({ user: u }) and find({ user: u })
  // ---------------------------------------------------------------------------

  /** `countDocuments({ <owner field>: u })`, where `owner` reads the owner field of a document
      (`None` when the document has no such field). */
  function CountOwned<T(==,!new)>(s: seq<Doc<T>>, owner: T -> Option<Id>, u: Id): nat
  {
    if |s| == 0 then 0
    else (if owner(s[0].body) == Some(u) then 1 else 0) + CountOwned(s[1..], owner, u)
  }

  /** `find({ <owner field>: u })`, in natural order. */
  function Owned<T(==,!new)>(s: seq<Doc<T>>, owner: T -> Option<Id>, u: Id): (r: seq<Doc<T>>)
    ensures forall d :: d in r <==> d in s && owner(d.body) == Some(u)
    ensures |r| == CountOwned(s, owner, u)
  {
    if |s| == 0 then []
    else if owner(s[0].body) == Some(u) then [s[0]] + Owned(s[1..], owner, u)
    else Owned(s[1..], owner, u)
  }

  lemma {:induction false} CountOwnedAppend<T(!new)>(s: seq<Doc<T>>, d: Doc<T>, owner: T -> Option<Id>, u: Id)
    ensures CountOwned(s + [d], owner, u) == CountOwned(s, owner, u) + (if owner(d.body) == Some(u) then 1 else 0)
  {
    if |s| > 0 {
      assert (s + [d])[1..] == s[1..] + [d];
      CountOwnedAppend(s[1..], d, owner, u);
    }
  }

  /** The count is zero exactly when no document names `u` as its owner. */
  lemma {:induction false} CountOwnedZero<T(!new)>(s: seq<Doc<T>>, owner: T -> Option<Id>, u: Id)
    ensures CountOwned(s, owner, u) == 0 <==> forall d :: d in s ==> owner(d.body) != Some(u)
  {
    if |s| > 0 {
      CountOwnedZero(s[1..], owner, u);
      assert forall d :: d in s ==> d == s[0] || d in s[1..];
    }
  }

  /** Deleting one document lowers its owner's count by one and nobody else's. */
  lemma {:induction false} CountOwnedRemove<T(!new)>(s: seq<Doc<T>>, i: nat, owner: T -> Option<Id>, u: Id)
    requires UniqueIds(s) && i < |s|
    ensures CountOwned(RemoveById(s, s[i].id), owner, u)
         == CountOwned(s, owner, u) - (if owner(s[i].body) == Some(u) then 1 else 0)
  {
    var id := s[i].id;
    if i == 0 {
      RemoveByIdAbsent(s[1..], id);
    } else {
      assert s[0].id != id;
      CountOwnedRemove(s[1..], i - 1, owner, u);
    }
  }

  /** A `deleteMany` that matches nothing leaves the collection as it was. */
  lemma {:induction false} FilterKeepsAll<T(!new)>(s: seq<T>, keep: T -> bool)
    requires forall x :: x in s ==> keep(x)
    ensures Filter(s, keep) == s
  {
    if |s| > 0 {
      assert s[0] in s;
      FilterKeepsAll(s[1..], keep);
    }
  }

  /** `deleteMany` / `filter` distributes over concatenation. */
  lemma {:induction false} FilterAppend<T(!new)>(a: seq<T>, b: seq<T>, keep: T -> bool)
    ensures Filter(a + b, keep) == Filter(a, keep) + Filter(b, keep)
  {
    if |a| > 0 {
      assert (a + b)[1..] == a[1..] + b;
      FilterAppend(a[1..], b, keep);
    } else {
      assert a + b == b;
    }
  }

  /** `filter` keeps each kept element as often as it occurs, and drops the others. */
  lemma {:induction false} FilterCount<T(!new)>(s: seq<T>, keep: T -> bool, x: T)
    ensures multiset(Filter(s, keep))[x] == if keep(x) then multiset(s)[x] else 0
  {
    if |s| > 0 {
      FilterCount(s[1..], keep, x);
      assert s == [s[0]] + s[1..];
    }
  }

  /** In a collection with distinct identifiers each document occurs once. */
  lemma {:induction false} OccursOnce<T(!new)>(s: seq<Doc<T>>, d: Doc<T>)
    requires UniqueIds(s) && d in s
    ensures multiset(s)[d] == 1
  {
    assert s == [s[0]] + s[1..];
    if s[0] != d {
      OccursOnce(s[1..], d);
    }
  }

  /** A filter that no element passes keeps nothing. */
  lemma FilterNone<T(!new)>(s: seq<T>, keep: T -> bool)
    requires forall x :: x in s ==> !keep(x)
    ensures Filter(s, keep) == []
  {
    var r := Filter(s, keep);
    assert forall x :: x !in r;
  }

  /** Filtering by a condition that implies the first filter's is filtering by it alone. */
  lemma {:induction false} FilterFilter<T(!new)>(s: seq<T>, outer: T -> bool, inner: T -> bool)
    requires forall x :: inner(x) ==> outer(x)
    ensures Filter(Filter(s, outer), inner) == Filter(s, inner)
  {
    if |s| > 0 {
      FilterFilter(s[1..], outer, inner);
      if outer(s[0]) {
        var f := Filter(s, outer);
        assert f == [s[0]] + Filter(s[1..], outer);
        assert f[1..] == Filter(s[1..], outer);
      }
    }
  }

  /** Two filters commute. */
  lemma {:induction false} FilterCommute<T(!new)>(s: seq<T>, a: T -> bool, b: T -> bool)
    ensures Filter(Filter(s, a), b) == Filter(Filter(s, b), a)
  {
    if |s| > 0 {
      FilterCommute(s[1..], a, b);
      var fa := Filter(s, a);
      var fb := Filter(s, b);
      if a(s[0]) {
        assert fa == [s[0]] + Filter(s[1..], a);
        assert fa[1..] == Filter(s[1..], a);
      }
      if b(s[0]) {
        assert fb == [s[0]] + Filter(s[1..], b);
        assert fb[1..] == Filter(s[1..], b);
      }
    }
  }

  /** `deleteOne({ _id: id })` is `deleteMany` of the documents with that `_id`. */
  lemma {:induction false} RemoveByIdIsFilter<T(!new)>(s: seq<Doc<T>>, id: Id)
    ensures RemoveById(s, id) == Filter(s, (d: Doc<T>) => d.id != id)
  {
    if |s| > 0 {
      RemoveByIdIsFilter(s[1..], id);
    }
  }

  /** Mapping by a function that keeps every filter verdict commutes with filtering. */
  lemma {:induction false} FilterMapSeq<T(!new)>(s: seq<T>, f: T -> T, keep: T -> bool)
    requires forall x :: keep(f(x)) == keep(x)
    ensures Filter(MapSeq(s, f), keep) == MapSeq(Filter(s, keep), f)
  {
    if |s| > 0 {
      FilterMapSeq(s[1..], f, keep);
      var m := MapSeq(s, f);
      MapSeqCons(s, f);
      assert keep(m[0]) == keep(s[0]);
      if keep(s[0]) {
        var fs := Filter(s, keep);
        assert fs[0] == s[0] && fs[1..] == Filter(s[1..], keep);
        MapSeqCons(fs, f);
      }
    }
  }

  /** A mapped sequence is the image of its head followed by its mapped tail. */
  lemma MapSeqCons<T>(s: seq<T>, f: T -> T)
    requires |s| > 0
    ensures MapSeq(s, f)[0] == f(s[0]) && MapSeq(s, f)[1..] == MapSeq(s[1..], f)
  {
  }

  /** Mapping by a function that fixes every element changes nothing. */
  lemma MapSeqFixed<T>(s: seq<T>, f: T -> T)
    requires forall x :: x in s ==> f(x) == x
    ensures MapSeq(s, f) == s
  {
    assert forall i :: 0 <= i < |s| ==> s[i] in s;
  }

  /** Replacing an `_id` that is not stored changes nothing. */
  lemma ReplaceAbsent<T(!new)>(s: seq<Doc<T>>, d: Doc<T>)
    requires forall x :: x in s ==> x.id != d.id
    ensures Replace(s, d) == s
  {
    assert forall i :: 0 <= i < |s| ==> s[i] in s;
  }

  /** Replacing the stored document with `_id` `d.id` by `d` moves the number of
      documents a filter keeps by what it said of the old one and says of the new one. */
  lemma {:induction false} FilterReplaceCount<T(!new)>(s: seq<Doc<T>>, d: Doc<T>, keep: Doc<T> -> bool)
    requires UniqueIds(s) && FindById(s, d.id).Some?
    ensures |Filter(Replace(s, d), keep)| + (if keep(FindById(s, d.id).value) then 1 else 0)
         == |Filter(s, keep)| + (if keep(d) then 1 else 0)
  {
    var t := s[1..];
    var r := Replace(s, d);
    var rt := Replace(t, d);
    assert r == [r[0]] + rt;
    assert s == [s[0]] + t;
    FilterCons(r[0], rt, keep);
    FilterCons(s[0], t, keep);
    UniqueTail(s);
    if s[0].id == d.id {
      ReplaceAbsent(t, d);
      assert r[0] == d && rt == t && FindById(s, d.id) == Some(s[0]);
    } else {
      assert r[0] == s[0] && FindById(s, d.id) == FindById(t, d.id);
      FilterReplaceCount(t, d, keep);
    }
  }

  /** Filtering a list with a head: the head if it is kept, then the filtered tail. */
  lemma FilterCons<T(!new)>(x: T, t: seq<T>, keep: T -> bool)
    ensures Filter([x] + t, keep) == (if keep(x) then [x] else []) + Filter(t, keep)
  {
    assert ([x] + t)[0] == x && ([x] + t)[1..] == t;
  }
}
