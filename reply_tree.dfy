/**
  `GET /replies/question/:questionId`: the question's replies, oldest first, arranged as
  a forest. The handler fills `replyMap` with one node per reply and then, in order,
  appends each reply to its parent's `children` or to `rootReplies`. A parent that is
  not among the fetched replies makes `replyMap[parentReplyId]` undefined, and the
  whole request fails with 500.

  The model keeps the handler's shape: the roots, and every reply's children list by
  `_id`. The nested JSON rendering of the shared nodes is not modelled.
 */
module ReplyTree {
  import opened Wrappers
  import opened Docs
  import opened Http
  import opened Db
  import opened Sorting
  import RM = ReplyModel

  /** The `TypeError` of reading `children` of an undefined map entry. */
  const MISSING_PARENT: string := "Cannot read properties of undefined (reading 'children')"

  function CreatedAt(d: Doc<RM.Reply>): int { d.createdAt }

  function OfQuestion(questionId: Id): Doc<RM.Reply> -> bool {
    (d: Doc<RM.Reply>) => d.body.questionId == questionId
  }

  /** `Reply.find({ questionId }).sort({ createdAt: 1 })`. */
  function RepliesOf(st: State, questionId: Id): seq<Doc<RM.Reply>> {
    SortBy(Filter(st.replies, OfQuestion(questionId)), CreatedAt)
  }

  /** `rootReplies` and each node's `children`, by the node's `_id`. */
  datatype Forest = Forest(roots: seq<Doc<RM.Reply>>, children: map<Id, seq<Doc<RM.Reply>>>)

  predicate IsRoot(d: Doc<RM.Reply>) { d.body.parentReplyId.None? }

  function ChildOf(p: Id): Doc<RM.Reply> -> bool {
    (d: Doc<RM.Reply>) => d.body.parentReplyId == Some(p)
  }

  function IdsOf(rs: seq<Doc<RM.Reply>>): set<Id> {
    set d | d in rs :: d.id
  }

  /** Every parent pointer names one of the fetched replies. */
  predicate ParentsPresent(rs: seq<Doc<RM.Reply>>) {
    forall d :: d in rs && d.body.parentReplyId.Some? ==> d.body.parentReplyId.value in IdsOf(rs)
  }

  /** The forest the handler means to build: the top-level replies, and for each fetched
      reply the replies naming it as parent, all in fetch order. */
  function ForestOf(rs: seq<Doc<RM.Reply>>): Forest {
    Forest(Filter(rs, IsRoot), map id | id in IdsOf(rs) :: Filter(rs, ChildOf(id)))
  }

  ghost predicate ChildrenSoFar(m: map<Id, seq<Doc<RM.Reply>>>, prefix: seq<Doc<RM.Reply>>) {
    forall k :: k in m ==> m[k] == Filter(prefix, ChildOf(k))
  }

  lemma FilterSnoc<T(!new)>(s: seq<T>, x: T, keep: T -> bool)
    ensures Filter(s + [x], keep) == Filter(s, keep) + (if keep(x) then [x] else [])
  {
    FilterAppend(s, [x], keep);
    assert [x][1..] == [];
  }

  /** One step of the second loop keeps every children list equal to the replies seen so
      far that name that node as parent. */
  lemma ChildrenStep(m: map<Id, seq<Doc<RM.Reply>>>, prefix: seq<Doc<RM.Reply>>, r: Doc<RM.Reply>)
    requires ChildrenSoFar(m, prefix)
    ensures r.body.parentReplyId.Some? && r.body.parentReplyId.value in m ==>
      var p := r.body.parentReplyId.value;
      ChildrenSoFar(m[p := m[p] + [r]], prefix + [r])
    ensures r.body.parentReplyId.None? ==> ChildrenSoFar(m, prefix + [r])
  {
    forall k | k in m {
      FilterSnoc(prefix, r, ChildOf(k));
    }
  }

  /** With the right keys and children lists, the handler's map and roots are the
      intended forest. */
  lemma ForestIs(m: map<Id, seq<Doc<RM.Reply>>>, roots: seq<Doc<RM.Reply>>, rs: seq<Doc<RM.Reply>>)
    requires m.Keys == IdsOf(rs) && ChildrenSoFar(m, rs) && roots == Filter(rs, IsRoot)
    ensures Forest(roots, m) == ForestOf(rs)
  {
    var want := ForestOf(rs).children;
    assert m.Keys == want.Keys;
    assert forall k :: k in m ==> m[k] == want[k];
  }

  /** The handler's first loop: an empty `children` list for every fetched reply. */
  method EmptyNodes(replies: seq<Doc<RM.Reply>>) returns (replyMap: map<Id, seq<Doc<RM.Reply>>>)
    ensures replyMap.Keys == IdsOf(replies) && ChildrenSoFar(replyMap, [])
  {
    replyMap := map[];
    var i := 0;
    while i < |replies|
      invariant 0 <= i <= |replies|
      invariant replyMap.Keys == IdsOf(replies[..i])
      invariant forall k :: k in replyMap ==> replyMap[k] == []
    {
      assert replies[..i + 1] == replies[..i] + [replies[i]];
      replyMap := replyMap[replies[i].id := []];
      i := i + 1;
    }
    assert replies[..i] == replies;
  }

  /** One turn of the handler's second loop: `r` goes to its parent's children, or to the
      roots; `ok` is false when the parent has no node. */
  method Attach(replyMap: map<Id, seq<Doc<RM.Reply>>>, rootReplies: seq<Doc<RM.Reply>>,
                ghost prefix: seq<Doc<RM.Reply>>, r: Doc<RM.Reply>)
    returns (ok: bool, replyMap': map<Id, seq<Doc<RM.Reply>>>, rootReplies': seq<Doc<RM.Reply>>)
    requires ChildrenSoFar(replyMap, prefix) && rootReplies == Filter(prefix, IsRoot)
    ensures ok <==> r.body.parentReplyId.None? || r.body.parentReplyId.value in replyMap
    ensures ok ==> replyMap'.Keys == replyMap.Keys && ChildrenSoFar(replyMap', prefix + [r])
                   && rootReplies' == Filter(prefix + [r], IsRoot)
  {
    FilterSnoc(prefix, r, IsRoot);
    ChildrenStep(replyMap, prefix, r);
    ok, replyMap', rootReplies' := true, replyMap, rootReplies;
    if r.body.parentReplyId.Some? {
      var p := r.body.parentReplyId.value;
      if p !in replyMap {
        return false, replyMap, rootReplies;
      }
      replyMap' := replyMap[p := replyMap[p] + [r]];
    } else {
      rootReplies' := rootReplies + [r];
    }
  }

  /** The two loops of the handler. */
  method BuildForest(replies: seq<Doc<RM.Reply>>) returns (ok: bool, forest: Forest)
    ensures ok <==> ParentsPresent(replies)
    ensures ok ==> forest == ForestOf(replies)
  {
    var replyMap := EmptyNodes(replies);
    var rootReplies: seq<Doc<RM.Reply>> := [];
    var i := 0;
    while i < |replies|
      invariant 0 <= i <= |replies|
      invariant replyMap.Keys == IdsOf(replies)
      invariant rootReplies == Filter(replies[..i], IsRoot)
      invariant ChildrenSoFar(replyMap, replies[..i])
      invariant forall d :: d in replies[..i] && d.body.parentReplyId.Some? ==> d.body.parentReplyId.value in IdsOf(replies)
    {
      var r := replies[i];
      assert replies[..i + 1] == replies[..i] + [r];
      var attached;
      attached, replyMap, rootReplies := Attach(replyMap, rootReplies, replies[..i], r);
      if !attached {
        assert r in replies;
        return false, Forest([], map[]);
      }
      i := i + 1;
    }
    assert replies[..i] == replies;
    ForestIs(replyMap, rootReplies, replies);
    return true, Forest(rootReplies, replyMap);
  }

  /** The handler's answer. */
  function Replies(st: State, questionId: Id): Response<Forest> {
    var rs := RepliesOf(st, questionId);
    if ParentsPresent(rs) then Ok(200, ForestOf(rs)) else Err(500, MISSING_PARENT)
  }

  /** `getRepliesByQuestion`: reads the store and changes nothing. */
  method GetRepliesByQuestion(db: Store, questionId: Id) returns (resp: Response<Forest>)
    ensures resp == Replies(db.Snapshot(), questionId)
  {
    var replies := SortBy(Filter(db.replies, OfQuestion(questionId)), CreatedAt);
    var ok, forest := BuildForest(replies);
    if !ok {
      return Err(500, MISSING_PARENT);
    }
    resp := Ok(200, forest);
  }

  // ---------------------------------------------------------------------------
  // Properties
  // ---------------------------------------------------------------------------

  lemma {:induction false} FilterSorted<T(!new)>(s: seq<T>, keep: T -> bool, key: T -> int)
    requires SortedBy(s, key)
    ensures SortedBy(Filter(s, keep), key)
  {
    if |s| > 0 {
      assert SortedBy(s[1..], key);
      FilterSorted(s[1..], keep, key);
      if keep(s[0]) {
        var r := Filter(s, keep);
        forall j | 0 < j < |r| ensures key(r[0]) <= key(r[j]) {
          assert r[j] in Filter(s[1..], keep);
          var k :| 0 <= k < |s[1..]| && s[1..][k] == r[j];
          assert s[k + 1] == r[j];
        }
      }
    }
  }

  /** Each fetched reply is placed exactly as often as it was fetched: among the roots
      when it has no parent, otherwise in its parent's children and nowhere else; and
      every placed reply was fetched, under the parent it names. */
  lemma ForestPlacesEachReply(rs: seq<Doc<RM.Reply>>, d: Doc<RM.Reply>)
    requires ParentsPresent(rs)
    ensures var f := ForestOf(rs);
      && (forall x :: x in f.roots <==> x in rs && IsRoot(x))
      && (forall k, x :: k in f.children && x in f.children[k] ==> x in rs && x.body.parentReplyId == Some(k))
      && (d in rs && IsRoot(d) ==> multiset(f.roots)[d] == multiset(rs)[d])
      && (d in rs && !IsRoot(d) ==>
            && d !in f.roots
            && d.body.parentReplyId.value in f.children
            && multiset(f.children[d.body.parentReplyId.value])[d] == multiset(rs)[d])
  {
    FilterCount(rs, IsRoot, d);
    if d in rs && !IsRoot(d) {
      FilterCount(rs, ChildOf(d.body.parentReplyId.value), d);
    }
  }

  /** The fetched replies are exactly the question's replies, oldest first, each once. */
  lemma RepliesOfFacts(st: State, questionId: Id, d: Doc<RM.Reply>)
    requires WellFormedState(st)
    ensures var rs := RepliesOf(st, questionId);
      && SortedBy(rs, CreatedAt)
      && (d in rs <==> d in st.replies && d.body.questionId == questionId)
      && (d in rs ==> multiset(rs)[d] == 1)
  {
    var fs := Filter(st.replies, OfQuestion(questionId));
    SortBySorted(fs, CreatedAt);
    SortByMembership(fs, CreatedAt, d);
    if d in fs {
      FilterWellFormed(st.replies, OfQuestion(questionId), st.nextId);
      OccursOnce(fs, d);
    }
  }

  /** Of the handler: it answers 500 exactly when some reply of the question names a
      parent that is not one of the question's replies. Otherwise every reply of the
      question appears exactly once, as a root when it has no parent and else among its
      parent's children, and the roots and every children list are oldest first. */
  lemma ListingIsForest(st: State, questionId: Id, d: Doc<RM.Reply>)
    requires WellFormedState(st)
    ensures var rs := RepliesOf(st, questionId);
      && (Replies(st, questionId).Err? <==>
            exists x :: x in rs && x.body.parentReplyId.Some? && x.body.parentReplyId.value !in IdsOf(rs))
      && (Replies(st, questionId).Ok? ==>
            var f := Replies(st, questionId).body;
            && SortedBy(f.roots, CreatedAt)
            && (forall k :: k in f.children ==> SortedBy(f.children[k], CreatedAt))
            && (d in st.replies && d.body.questionId == questionId && IsRoot(d) ==> multiset(f.roots)[d] == 1)
            && (d in st.replies && d.body.questionId == questionId && !IsRoot(d) ==>
                  d !in f.roots && d.body.parentReplyId.value in f.children && multiset(f.children[d.body.parentReplyId.value])[d] == 1))
  {
    var rs := RepliesOf(st, questionId);
    RepliesOfFacts(st, questionId, d);
    if ParentsPresent(rs) {
      ForestPlacesEachReply(rs, d);
      FilterSorted(rs, IsRoot, CreatedAt);
      forall k | k in ForestOf(rs).children ensures SortedBy(ForestOf(rs).children[k], CreatedAt) {
        FilterSorted(rs, ChildOf(k), CreatedAt);
      }
    }
  }
}
