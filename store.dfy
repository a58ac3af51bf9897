/**
  The document store: one collection per model, kept in insertion (natural) order, and
  a counter that hands out fresh `_id`s. `State` is its value; `Store` is the mutable
  object every handler works on, with one primitive per write the handlers perform.

  The per-user counts the role rules use are defined here: the five place
  collections are counted by their `user` path and the Contributions by `userId`.
 */
module Db {
  import opened Wrappers
  import opened Docs
  import opened Http
  import FS = FamousSpotModel
  import HS = HiddenSpotModel
  import FF = FamousFoodModel
  import HC = HandicraftModel
  import HI = HistoryModel
  import CM = ContributionModel
  import RM = ReplyModel
  import QM = QuestionModel
  import NM = NotificationModel

  /** A user account as the handlers see it (the password hash is not modelled). */
  datatype User = User(username: string, email: string, role: string)

  datatype State = State(
    famousSpots: seq<Doc<FS.FamousSpot>>,
    hiddenSpots: seq<Doc<HS.HiddenSpot>>,
    foods: seq<Doc<FF.FamousFood>>,
    handicrafts: seq<Doc<HC.Handicraft>>,
    histories: seq<Doc<HI.History>>,
    contributions: seq<Doc<CM.Contribution>>,
    users: seq<Doc<User>>,
    questions: seq<Doc<QM.Question>>,
    replies: seq<Doc<RM.Reply>>,
    notifications: seq<Doc<NM.Notification>>,
    nextId: nat)

  /** A handler's effect: the new state and the response it sends. */
  datatype Outcome<T> = Outcome(st: State, resp: Response<T>)

  /** Every collection has distinct `_id`s, all below the next fresh one. */
  predicate WellFormedState(st: State) {
    && WellFormed(st.famousSpots, st.nextId) && WellFormed(st.hiddenSpots, st.nextId)
    && WellFormed(st.foods, st.nextId) && WellFormed(st.handicrafts, st.nextId)
    && WellFormed(st.histories, st.nextId) && WellFormed(st.contributions, st.nextId)
    && WellFormed(st.users, st.nextId) && WellFormed(st.questions, st.nextId)
    && WellFormed(st.replies, st.nextId) && WellFormed(st.notifications, st.nextId)
  }

  /** Every stored document passes its model's schema validators. */
  predicate SchemaValid(st: State) {
    && AllSatisfy(st.famousSpots, FS.Valid) && AllSatisfy(st.hiddenSpots, HS.Valid)
    && AllSatisfy(st.foods, FF.Valid) && AllSatisfy(st.handicrafts, HC.Valid)
    && AllSatisfy(st.histories, HI.Valid) && AllSatisfy(st.replies, RM.Valid)
    && AllSatisfy(st.questions, QM.Valid) && AllSatisfy(st.notifications, NM.Valid)
  }

  // ---------------------------------------------------------------------------
  // Per-user counts
  // ---------------------------------------------------------------------------

  /** `Contribution.countDocuments({ userId: u })`. */
  function ContributionCount(st: State, u: Id): nat {
    CountOwned(st.contributions, CM.UserIdOf, u)
  }

  /** The sum of `countDocuments({ user: u })` over the five place collections. */
  function PlaceItems(st: State, u: Id): nat {
    CountOwned(st.famousSpots, FS.UserOf, u) + CountOwned(st.hiddenSpots, HS.UserOf, u)
    + CountOwned(st.foods, FF.UserOf, u) + CountOwned(st.handicrafts, HC.UserOf, u)
    + CountOwned(st.histories, HI.UserOf, u)
  }

  /** The six-collection sum: the five place counts plus the Contributions. */
  function TotalItems(st: State, u: Id): nat {
    PlaceItems(st, u) + ContributionCount(st, u)
  }

  // ---------------------------------------------------------------------------
  // Users
  // ---------------------------------------------------------------------------

  function FindUser(st: State, id: Id): Option<Doc<User>> {
    FindById(st.users, id)
  }

  /** `User.findByIdAndUpdate(id, { role })`; a missing user changes nothing. */
  function SetRole(st: State, id: Id, role: string): (r: State)
    requires WellFormedState(st)
    ensures WellFormedState(r)
    ensures r == st.(users := r.users)
    ensures |r.users| == |st.users|
    ensures forall i :: 0 <= i < |st.users| ==>
      r.users[i] == if st.users[i].id == id then st.users[i].(body := st.users[i].body.(role := role)) else st.users[i]
  {
    match FindUser(st, id)
    case None =>
      assert forall i :: 0 <= i < |st.users| ==> st.users[i].id != id by {
        forall i | 0 <= i < |st.users| ensures st.users[i].id != id {
          assert st.users[i] in st.users;
        }
      }
      st
    case Some(d) =>
      var d' := d.(body := d.body.(role := role));
      ReplaceWellFormed(st.users, d, st.nextId);
      assert forall i :: 0 <= i < |st.users| && st.users[i].id == id ==> st.users[i] == d by {
        forall i | 0 <= i < |st.users| && st.users[i].id == id ensures st.users[i] == d {
          var j :| 0 <= j < |st.users| && st.users[j] == d;
          assert st.users[i].id == st.users[j].id;
        }
      }
      st.(users := Replace(st.users, d'))
  }

  /** The stored role of `id`, if the user exists. */
  function RoleOf(st: State, id: Id): Option<string> {
    match FindUser(st, id)
    case None => None
    case Some(d) => Some(d.body.role)
  }

  /** Two states with the same users agree on every user and role. */
  lemma SameUsersSameRoles(a: State, b: State)
    requires a.users == b.users
    ensures forall v :: FindUser(a, v) == FindUser(b, v) && RoleOf(a, v) == RoleOf(b, v)
  {
  }

  /** After `SetRole(st, id, role)` the same users exist, `id` (if present) holds `role`,
      and every other user keeps their role. */
  lemma SetRoleEffect(st: State, id: Id, role: string, v: Id)
    requires WellFormedState(st)
    ensures var r := SetRole(st, id, role);
      && (FindUser(r, v).Some? <==> FindUser(st, v).Some?)
      && RoleOf(r, v) == (if v == id && FindUser(st, v).Some? then Some(role) else RoleOf(st, v))
  {
    var r := SetRole(st, id, role);
    if i :| 0 <= i < |st.users| && st.users[i].id == v {
      FindByIdUnique(st.users, i);
      FindByIdUnique(r.users, i);
    } else {
      forall d | d in r.users ensures d.id != v {
        var j :| 0 <= j < |r.users| && r.users[j] == d;
      }
    }
  }

  // ---------------------------------------------------------------------------
  // Inserts: a fresh `_id` and the creation time `now`
  // ---------------------------------------------------------------------------

  function AddContribution(st: State, c: CM.Contribution, now: int): (r: State)
    requires WellFormedState(st)
    ensures WellFormedState(r)
    ensures r == st.(contributions := st.contributions + [Doc(st.nextId, now, c)], nextId := st.nextId + 1)
  {
    WellFormedAppend(st.contributions, Doc(st.nextId, now, c), st.nextId);
    st.(contributions := st.contributions + [Doc(st.nextId, now, c)], nextId := st.nextId + 1)
  }

  function AddHiddenSpot(st: State, h: HS.HiddenSpot, now: int): (r: State)
    requires WellFormedState(st)
    ensures WellFormedState(r)
    ensures r == st.(hiddenSpots := st.hiddenSpots + [Doc(st.nextId, now, h)], nextId := st.nextId + 1)
  {
    WellFormedAppend(st.hiddenSpots, Doc(st.nextId, now, h), st.nextId);
    st.(hiddenSpots := st.hiddenSpots + [Doc(st.nextId, now, h)], nextId := st.nextId + 1)
  }

  function AddFood(st: State, f: FF.FamousFood, now: int): (r: State)
    requires WellFormedState(st)
    ensures WellFormedState(r)
    ensures r == st.(foods := st.foods + [Doc(st.nextId, now, f)], nextId := st.nextId + 1)
  {
    WellFormedAppend(st.foods, Doc(st.nextId, now, f), st.nextId);
    st.(foods := st.foods + [Doc(st.nextId, now, f)], nextId := st.nextId + 1)
  }

  function AddHandicraft(st: State, h: HC.Handicraft, now: int): (r: State)
    requires WellFormedState(st)
    ensures WellFormedState(r)
    ensures r == st.(handicrafts := st.handicrafts + [Doc(st.nextId, now, h)], nextId := st.nextId + 1)
  {
    WellFormedAppend(st.handicrafts, Doc(st.nextId, now, h), st.nextId);
    st.(handicrafts := st.handicrafts + [Doc(st.nextId, now, h)], nextId := st.nextId + 1)
  }

  function AddHistory(st: State, h: HI.History, now: int): (r: State)
    requires WellFormedState(st)
    ensures WellFormedState(r)
    ensures r == st.(histories := st.histories + [Doc(st.nextId, now, h)], nextId := st.nextId + 1)
  {
    WellFormedAppend(st.histories, Doc(st.nextId, now, h), st.nextId);
    st.(histories := st.histories + [Doc(st.nextId, now, h)], nextId := st.nextId + 1)
  }

  function AddUser(st: State, u: User, now: int): (r: State)
    requires WellFormedState(st)
    ensures WellFormedState(r)
    ensures r == st.(users := st.users + [Doc(st.nextId, now, u)], nextId := st.nextId + 1)
  {
    WellFormedAppend(st.users, Doc(st.nextId, now, u), st.nextId);
    st.(users := st.users + [Doc(st.nextId, now, u)], nextId := st.nextId + 1)
  }

  function AddQuestion(st: State, q: QM.Question, now: int): (r: State)
    requires WellFormedState(st)
    ensures WellFormedState(r)
    ensures r == st.(questions := st.questions + [Doc(st.nextId, now, q)], nextId := st.nextId + 1)
  {
    WellFormedAppend(st.questions, Doc(st.nextId, now, q), st.nextId);
    st.(questions := st.questions + [Doc(st.nextId, now, q)], nextId := st.nextId + 1)
  }

  function AddReply(st: State, r: RM.Reply, now: int): (r': State)
    requires WellFormedState(st)
    ensures WellFormedState(r')
    ensures r' == st.(replies := st.replies + [Doc(st.nextId, now, r)], nextId := st.nextId + 1)
  {
    WellFormedAppend(st.replies, Doc(st.nextId, now, r), st.nextId);
    st.(replies := st.replies + [Doc(st.nextId, now, r)], nextId := st.nextId + 1)
  }

  function AddNotification(st: State, n: NM.Notification, now: int): (r: State)
    requires WellFormedState(st)
    ensures WellFormedState(r)
    ensures r == st.(notifications := st.notifications + [Doc(st.nextId, now, n)], nextId := st.nextId + 1)
  {
    WellFormedAppend(st.notifications, Doc(st.nextId, now, n), st.nextId);
    st.(notifications := st.notifications + [Doc(st.nextId, now, n)], nextId := st.nextId + 1)
  }

  // ---------------------------------------------------------------------------
  // The five place collections, selected by model
  // ---------------------------------------------------------------------------

  datatype PlaceCollection = FamousSpots | HiddenSpots | Foods | Handicrafts | Histories

  /** `Model.findById(id)`, reduced to what the delete handler reads: `None` when there is
      no such document, else its `user` field (`None` when the document has none). */
  function PlaceOwner(st: State, k: PlaceCollection, id: Id): Option<Option<Id>> {
    match k
    case FamousSpots => (match FindById(st.famousSpots, id) case None => None case Some(d) => Some(FS.UserOf(d.body)))
    case HiddenSpots => (match FindById(st.hiddenSpots, id) case None => None case Some(d) => Some(HS.UserOf(d.body)))
    case Foods => (match FindById(st.foods, id) case None => None case Some(d) => Some(FF.UserOf(d.body)))
    case Handicrafts => (match FindById(st.handicrafts, id) case None => None case Some(d) => Some(HC.UserOf(d.body)))
    case Histories => (match FindById(st.histories, id) case None => None case Some(d) => Some(HI.UserOf(d.body)))
  }

  /** `Model.deleteOne({ _id: id })`: only the selected collection changes. */
  function RemovePlace(st: State, k: PlaceCollection, id: Id): (r: State)
    requires WellFormedState(st)
    ensures WellFormedState(r)
    ensures r.users == st.users && r.contributions == st.contributions && r.nextId == st.nextId
  {
    match k
    case FamousSpots => RemoveByIdWellFormed(st.famousSpots, id, st.nextId); st.(famousSpots := RemoveById(st.famousSpots, id))
    case HiddenSpots => RemoveByIdWellFormed(st.hiddenSpots, id, st.nextId); st.(hiddenSpots := RemoveById(st.hiddenSpots, id))
    case Foods => RemoveByIdWellFormed(st.foods, id, st.nextId); st.(foods := RemoveById(st.foods, id))
    case Handicrafts => RemoveByIdWellFormed(st.handicrafts, id, st.nextId); st.(handicrafts := RemoveById(st.handicrafts, id))
    case Histories => RemoveByIdWellFormed(st.histories, id, st.nextId); st.(histories := RemoveById(st.histories, id))
  }

  /** `Contribution.deleteOne({ _id: id })`. */
  function RemoveContribution(st: State, id: Id): (r: State)
    requires WellFormedState(st)
    ensures WellFormedState(r) && r == st.(contributions := RemoveById(st.contributions, id))
  {
    RemoveByIdWellFormed(st.contributions, id, st.nextId);
    st.(contributions := RemoveById(st.contributions, id))
  }

  // ---------------------------------------------------------------------------
  // Forum writes: `findByIdAndUpdate`, `deleteMany`, `findByIdAndDelete`
  // ---------------------------------------------------------------------------

  /** `findByIdAndUpdate` (or `save` of a loaded document) on a Reply. */
  function PutReply(st: State, d: Doc<RM.Reply>): (r: State)
    requires WellFormedState(st)
    ensures WellFormedState(r) && r == st.(replies := Replace(st.replies, d))
  {
    ReplaceWellFormed(st.replies, d, st.nextId);
    st.(replies := Replace(st.replies, d))
  }

  function PutQuestion(st: State, d: Doc<QM.Question>): (r: State)
    requires WellFormedState(st)
    ensures WellFormedState(r) && r == st.(questions := Replace(st.questions, d))
  {
    ReplaceWellFormed(st.questions, d, st.nextId);
    st.(questions := Replace(st.questions, d))
  }

  function PutNotification(st: State, d: Doc<NM.Notification>): (r: State)
    requires WellFormedState(st)
    ensures WellFormedState(r) && r == st.(notifications := Replace(st.notifications, d))
  {
    ReplaceWellFormed(st.notifications, d, st.nextId);
    st.(notifications := Replace(st.notifications, d))
  }

  /** Question `q` with its `replyCount` moved by `delta`, every other field kept. */
  function Bumped(q: Doc<QM.Question>, delta: int): (r: Doc<QM.Question>)
    ensures r.id == q.id && r.createdAt == q.createdAt
    ensures r.body.replyCount == q.body.replyCount + delta
    ensures r.body.(replyCount := q.body.replyCount) == q.body
  {
    q.(body := q.body.(replyCount := q.body.replyCount + delta))
  }

  /** `Question.findByIdAndUpdate(id, { $inc: { replyCount: delta } })`; a missing
      question changes nothing. */
  function IncReplyCount(st: State, id: Id, delta: int): (r: State)
    requires WellFormedState(st)
    ensures WellFormedState(r) && r == st.(questions := r.questions)
  {
    match FindById(st.questions, id)
    case None => st
    case Some(q) => PutQuestion(st, Bumped(q, delta))
  }

  /** `$inc` changes the replyCount of question `id` by `delta` and nothing else. */
  lemma IncReplyCountEffect(st: State, id: Id, delta: int, q: Id)
    requires WellFormedState(st)
    ensures q != id ==> FindById(IncReplyCount(st, id, delta).questions, q) == FindById(st.questions, q)
    ensures FindById(st.questions, id).Some? ==>
      FindById(IncReplyCount(st, id, delta).questions, id) == Some(Bumped(FindById(st.questions, id).value, delta))
  {
    match FindById(st.questions, id)
    case None =>
    case Some(e) =>
      var e' := Bumped(e, delta);
      assert IncReplyCount(st, id, delta).questions == Replace(st.questions, e');
      FindByIdReplace(st.questions, e', q);
      FindByIdReplace(st.questions, e', id);
  }

  /** `Reply.deleteMany(filter)`: keeps the replies `keep` accepts. */
  function KeepReplies(st: State, keep: Doc<RM.Reply> -> bool): (r: State)
    requires WellFormedState(st)
    ensures WellFormedState(r) && r == st.(replies := Filter(st.replies, keep))
  {
    FilterWellFormed(st.replies, keep, st.nextId);
    st.(replies := Filter(st.replies, keep))
  }

  /** `Notification.deleteMany(filter)`. */
  function KeepNotifications(st: State, keep: Doc<NM.Notification> -> bool): (r: State)
    requires WellFormedState(st)
    ensures WellFormedState(r) && r == st.(notifications := Filter(st.notifications, keep))
  {
    FilterWellFormed(st.notifications, keep, st.nextId);
    st.(notifications := Filter(st.notifications, keep))
  }

  function RemoveReply(st: State, id: Id): (r: State)
    requires WellFormedState(st)
    ensures WellFormedState(r) && r == st.(replies := RemoveById(st.replies, id))
  {
    RemoveByIdWellFormed(st.replies, id, st.nextId);
    st.(replies := RemoveById(st.replies, id))
  }

  function RemoveQuestion(st: State, id: Id): (r: State)
    requires WellFormedState(st)
    ensures WellFormedState(r) && r == st.(questions := RemoveById(st.questions, id))
  {
    RemoveByIdWellFormed(st.questions, id, st.nextId);
    st.(questions := RemoveById(st.questions, id))
  }

  function RemoveNotification(st: State, id: Id): (r: State)
    requires WellFormedState(st)
    ensures WellFormedState(r) && r == st.(notifications := RemoveById(st.notifications, id))
  {
    RemoveByIdWellFormed(st.notifications, id, st.nextId);
    st.(notifications := RemoveById(st.notifications, id))
  }

  /** A notification as `updateMany({ recipientId: u, isRead: false }, { isRead: true })`
      leaves it. */
  function ReadIfFor(u: Id): Doc<NM.Notification> -> Doc<NM.Notification> {
    (d: Doc<NM.Notification>) =>
      if d.body.recipientId == u && !d.body.isRead then d.(body := d.body.(isRead := true)) else d
  }

  function MarkAllRead(st: State, u: Id): (r: State)
    requires WellFormedState(st)
    ensures WellFormedState(r) && r == st.(notifications := MapSeq(st.notifications, ReadIfFor(u)))
  {
    var s := MapSeq(st.notifications, ReadIfFor(u));
    assert forall i :: 0 <= i < |s| ==> s[i].id == st.notifications[i].id;
    assert WellFormed(s, st.nextId) by {
      forall x | x in s ensures x.id < st.nextId {
        var i :| 0 <= i < |s| && s[i] == x;
        assert st.notifications[i] in st.notifications;
      }
    }
    st.(notifications := s)
  }

  // ---------------------------------------------------------------------------
  // The mutable store
  // ---------------------------------------------------------------------------

  class Store {
    var famousSpots: seq<Doc<FS.FamousSpot>>
    var hiddenSpots: seq<Doc<HS.HiddenSpot>>
    var foods: seq<Doc<FF.FamousFood>>
    var handicrafts: seq<Doc<HC.Handicraft>>
    var histories: seq<Doc<HI.History>>
    var contributions: seq<Doc<CM.Contribution>>
    var users: seq<Doc<User>>
    var questions: seq<Doc<QM.Question>>
    var replies: seq<Doc<RM.Reply>>
    var notifications: seq<Doc<NM.Notification>>
    var nextId: nat

    /** The store's current value. */
    function Snapshot(): State
      reads this
    {
      State(famousSpots, hiddenSpots, foods, handicrafts, histories, contributions, users,
            questions, replies, notifications, nextId)
    }

    predicate Valid()
      reads this
    {
      WellFormedState(Snapshot())
    }

    /** An empty store. */
    constructor ()
      ensures Valid() && Snapshot() == State([], [], [], [], [], [], [], [], [], [], 0)
    {
      famousSpots, hiddenSpots, foods, handicrafts, histories := [], [], [], [], [];
      contributions, users, questions, replies, notifications := [], [], [], [], [];
      nextId := 0;
    }

    // Inserts (`create` / `save` of a new document)

    method InsertContribution(body: CM.Contribution, now: int) returns (d: Doc<CM.Contribution>)
      requires Valid()
      modifies this
      ensures Valid() && d == Doc(old(nextId), now, body)
      ensures Snapshot() == AddContribution(old(Snapshot()), body, now)
    {
      d := Doc(nextId, now, body);
      contributions, nextId := contributions + [d], nextId + 1;
    }

    /** `save` / `create`: the schema validators run first, and a failure writes nothing. */
    method SaveHiddenSpot(body: HS.HiddenSpot, now: int) returns (ok: bool, d: Doc<HS.HiddenSpot>)
      requires Valid()
      modifies this
      ensures Valid() && d == Doc(old(nextId), now, body)
      ensures ok <==> HS.Valid(body)
      ensures Snapshot() == if ok then AddHiddenSpot(old(Snapshot()), body, now) else old(Snapshot())
    {
      d := Doc(nextId, now, body);
      ok := HS.Valid(body);
      if ok {
        hiddenSpots, nextId := hiddenSpots + [d], nextId + 1;
      }
    }

    /** `save` / `create`: the schema validators run first, and a failure writes nothing. */
    method SaveFood(body: FF.FamousFood, now: int) returns (ok: bool, d: Doc<FF.FamousFood>)
      requires Valid()
      modifies this
      ensures Valid() && d == Doc(old(nextId), now, body)
      ensures ok <==> FF.Valid(body)
      ensures Snapshot() == if ok then AddFood(old(Snapshot()), body, now) else old(Snapshot())
    {
      d := Doc(nextId, now, body);
      ok := FF.Valid(body);
      if ok {
        foods, nextId := foods + [d], nextId + 1;
      }
    }

    /** `save` / `create`: the schema validators run first, and a failure writes nothing. */
    method SaveHandicraft(body: HC.Handicraft, now: int) returns (ok: bool, d: Doc<HC.Handicraft>)
      requires Valid()
      modifies this
      ensures Valid() && d == Doc(old(nextId), now, body)
      ensures ok <==> HC.Valid(body)
      ensures Snapshot() == if ok then AddHandicraft(old(Snapshot()), body, now) else old(Snapshot())
    {
      d := Doc(nextId, now, body);
      ok := HC.Valid(body);
      if ok {
        handicrafts, nextId := handicrafts + [d], nextId + 1;
      }
    }

    /** `save` / `create`: the schema validators run first, and a failure writes nothing. */
    method SaveHistory(body: HI.History, now: int) returns (ok: bool, d: Doc<HI.History>)
      requires Valid()
      modifies this
      ensures Valid() && d == Doc(old(nextId), now, body)
      ensures ok <==> HI.Valid(body)
      ensures Snapshot() == if ok then AddHistory(old(Snapshot()), body, now) else old(Snapshot())
    {
      d := Doc(nextId, now, body);
      ok := HI.Valid(body);
      if ok {
        histories, nextId := histories + [d], nextId + 1;
      }
    }

    method InsertUser(body: User, now: int) returns (d: Doc<User>)
      requires Valid()
      modifies this
      ensures Valid() && d == Doc(old(nextId), now, body)
      ensures Snapshot() == AddUser(old(Snapshot()), body, now)
    {
      d := Doc(nextId, now, body);
      users, nextId := users + [d], nextId + 1;
    }

    /** `save` / `create`: the schema validators run first, and a failure writes nothing. */
    method SaveQuestion(body: QM.Question, now: int) returns (ok: bool, d: Doc<QM.Question>)
      requires Valid()
      modifies this
      ensures Valid() && d == Doc(old(nextId), now, body)
      ensures ok <==> QM.Valid(body)
      ensures Snapshot() == if ok then AddQuestion(old(Snapshot()), body, now) else old(Snapshot())
    {
      d := Doc(nextId, now, body);
      ok := QM.Valid(body);
      if ok {
        questions, nextId := questions + [d], nextId + 1;
      }
    }

    /** `save` / `create`: the schema validators run first, and a failure writes nothing. */
    method SaveReply(body: RM.Reply, now: int) returns (ok: bool, d: Doc<RM.Reply>)
      requires Valid()
      modifies this
      ensures Valid() && d == Doc(old(nextId), now, body)
      ensures ok <==> RM.Valid(body)
      ensures Snapshot() == if ok then AddReply(old(Snapshot()), body, now) else old(Snapshot())
    {
      d := Doc(nextId, now, body);
      ok := RM.Valid(body);
      if ok {
        replies, nextId := replies + [d], nextId + 1;
      }
    }

    method InsertNotification(body: NM.Notification, now: int) returns (d: Doc<NM.Notification>)
      requires Valid()
      modifies this
      ensures Valid() && d == Doc(old(nextId), now, body)
      ensures Snapshot() == AddNotification(old(Snapshot()), body, now)
    {
      d := Doc(nextId, now, body);
      notifications, nextId := notifications + [d], nextId + 1;
    }

    /** `Model.deleteOne({ _id: id })` on one of the place collections. */
    method DeletePlace(k: PlaceCollection, id: Id)
      requires Valid()
      modifies this
      ensures Valid() && Snapshot() == RemovePlace(old(Snapshot()), k, id)
    {
      RemoveByIdWellFormed(famousSpots, id, nextId);
      RemoveByIdWellFormed(hiddenSpots, id, nextId);
      RemoveByIdWellFormed(foods, id, nextId);
      RemoveByIdWellFormed(handicrafts, id, nextId);
      RemoveByIdWellFormed(histories, id, nextId);
      match k
      case FamousSpots => famousSpots := RemoveById(famousSpots, id);
      case HiddenSpots => hiddenSpots := RemoveById(hiddenSpots, id);
      case Foods => foods := RemoveById(foods, id);
      case Handicrafts => handicrafts := RemoveById(handicrafts, id);
      case Histories => histories := RemoveById(histories, id);
    }

    /** `Contribution.deleteOne({ _id: id })`. */
    method DeleteContribution(id: Id)
      requires Valid()
      modifies this
      ensures Valid() && Snapshot() == RemoveContribution(old(Snapshot()), id)
    {
      RemoveByIdWellFormed(contributions, id, nextId);
      contributions := RemoveById(contributions, id);
    }

    /** `User.findByIdAndUpdate(id, { role })`. */
    method SetUserRole(id: Id, role: string)
      requires Valid()
      modifies this
      ensures Valid() && Snapshot() == SetRole(old(Snapshot()), id, role)
    {
      users := SetRole(Snapshot(), id, role).users;
    }

    /** `findByIdAndUpdate` of a Reply. */
    method UpdateReply(d: Doc<RM.Reply>)
      requires Valid()
      modifies this
      ensures Valid() && Snapshot() == PutReply(old(Snapshot()), d)
    {
      ReplaceWellFormed(replies, d, nextId);
      replies := Replace(replies, d);
    }

    /** `save` of a loaded Reply: the schema validators run first, and a failure writes
        nothing. */
    method SaveLoadedReply(d: Doc<RM.Reply>) returns (ok: bool)
      requires Valid()
      modifies this
      ensures Valid() && (ok <==> RM.Valid(d.body))
      ensures Snapshot() == if ok then PutReply(old(Snapshot()), d) else old(Snapshot())
    {
      ok := RM.Valid(d.body);
      if ok {
        ReplaceWellFormed(replies, d, nextId);
        replies := Replace(replies, d);
      }
    }

    method UpdateQuestion(d: Doc<QM.Question>)
      requires Valid()
      modifies this
      ensures Valid() && Snapshot() == PutQuestion(old(Snapshot()), d)
    {
      ReplaceWellFormed(questions, d, nextId);
      questions := Replace(questions, d);
    }

    method UpdateNotification(d: Doc<NM.Notification>)
      requires Valid()
      modifies this
      ensures Valid() && Snapshot() == PutNotification(old(Snapshot()), d)
    {
      ReplaceWellFormed(notifications, d, nextId);
      notifications := Replace(notifications, d);
    }

    /** `Question.findByIdAndUpdate(id, { $inc: { replyCount: delta } })`. */
    method AddToReplyCount(id: Id, delta: int)
      requires Valid()
      modifies this
      ensures Valid() && Snapshot() == IncReplyCount(old(Snapshot()), id, delta)
    {
      questions := IncReplyCount(Snapshot(), id, delta).questions;
    }

    method DeleteRepliesWhere(keep: Doc<RM.Reply> -> bool)
      requires Valid()
      modifies this
      ensures Valid() && Snapshot() == KeepReplies(old(Snapshot()), keep)
    {
      FilterWellFormed(replies, keep, nextId);
      replies := Filter(replies, keep);
    }

    method DeleteNotificationsWhere(keep: Doc<NM.Notification> -> bool)
      requires Valid()
      modifies this
      ensures Valid() && Snapshot() == KeepNotifications(old(Snapshot()), keep)
    {
      FilterWellFormed(notifications, keep, nextId);
      notifications := Filter(notifications, keep);
    }

    method DeleteReply(id: Id)
      requires Valid()
      modifies this
      ensures Valid() && Snapshot() == RemoveReply(old(Snapshot()), id)
    {
      RemoveByIdWellFormed(replies, id, nextId);
      replies := RemoveById(replies, id);
    }

    method DeleteQuestion(id: Id)
      requires Valid()
      modifies this
      ensures Valid() && Snapshot() == RemoveQuestion(old(Snapshot()), id)
    {
      RemoveByIdWellFormed(questions, id, nextId);
      questions := RemoveById(questions, id);
    }

    method DeleteNotification(id: Id)
      requires Valid()
      modifies this
      ensures Valid() && Snapshot() == RemoveNotification(old(Snapshot()), id)
    {
      RemoveByIdWellFormed(notifications, id, nextId);
      notifications := RemoveById(notifications, id);
    }

    /** `Notification.updateMany({ recipientId: u, isRead: false }, { isRead: true })`. */
    method ReadAll(u: Id)
      requires Valid()
      modifies this
      ensures Valid() && Snapshot() == MarkAllRead(old(Snapshot()), u)
    {
      notifications := MarkAllRead(Snapshot(), u).notifications;
    }
  }
}
