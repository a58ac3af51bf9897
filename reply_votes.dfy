/**
  `PUT /replies/:replyId/upvote` and `/downvote`: a toggle over the reply's `upvotedBy`
  and `downvotedBy` lists. Voting the same way again withdraws the vote; voting the
  other way moves it. Both counters are then reset to the lists' lengths, and the
  reply is saved.
 */
module ReplyVotes {
  import opened Docs
  import opened Http
  import opened Db
  import RM = ReplyModel

  const REPLY_NOT_FOUND: string := "Reply not found"

  /** `MongooseArray.pull(u)`: removes every occurrence of `u`, keeping the rest in order. */
  function Pull(s: seq<Id>, u: Id): (r: seq<Id>)
    ensures forall v :: v in r <==> v in s && v != u
    ensures |r| <= |s|
  {
    Filter(s, v => v != u)
  }

  lemma PullAbsent(s: seq<Id>, u: Id)
    requires u !in s
    ensures Pull(s, u) == s
  {
    FilterKeepsAll(s, v => v != u);
  }

  /** The toggle on the list being voted on (`mine`) and the opposite one (`other`), as the
      pair of new lists `(mine, other)`. */
  function Toggle(mine: seq<Id>, other: seq<Id>, u: Id): (seq<Id>, seq<Id>) {
    if u in mine then (Pull(mine, u), other)
    else (mine + [u], if u in other then Pull(other, u) else other)
  }

  /** The reply after an upvote by `u`. */
  function Upvoted(r: RM.Reply, u: Id): RM.Reply {
    var (ups, downs) := Toggle(r.upvotedBy, r.downvotedBy, u);
    r.(upvotedBy := ups, downvotedBy := downs, upvotes := |ups|, downvotes := |downs|)
  }

  /** The reply after a downvote by `u`. */
  function Downvoted(r: RM.Reply, u: Id): RM.Reply {
    var (downs, ups) := Toggle(r.downvotedBy, r.upvotedBy, u);
    r.(upvotedBy := ups, downvotedBy := downs, upvotes := |ups|, downvotes := |downs|)
  }

  /** The handler's effect: 404 for a missing reply; otherwise the toggled reply is saved
      (a schema failure answers 500 and writes nothing) and returned. */
  function Vote(st: State, caller: Caller, replyId: Id, up: bool): (o: Outcome<Doc<RM.Reply>>)
    requires WellFormedState(st)
    ensures WellFormedState(o.st)
  {
    match FindById(st.replies, replyId)
    case None => Outcome(st, Err(404, REPLY_NOT_FOUND))
    case Some(d) =>
      var d' := d.(body := if up then Upvoted(d.body, caller.id) else Downvoted(d.body, caller.id));
      if !RM.Valid(d'.body) then Outcome(st, Err(500, VALIDATION_FAILED))
      else Outcome(PutReply(st, d'), Ok(200, d'))
  }

  /** `upvoteReply`. */
  method UpvoteReply(db: Store, caller: Caller, replyId: Id) returns (resp: Response<Doc<RM.Reply>>)
    requires db.Valid()
    modifies db
    ensures db.Valid()
    ensures Outcome(db.Snapshot(), resp) == Vote(old(db.Snapshot()), caller, replyId, true)
  {
    var found := FindById(db.replies, replyId);
    if found.None? {
      return Err(404, REPLY_NOT_FOUND);
    }
    var reply := found.value.body;
    var userId := caller.id;
    var hasUpvoted := userId in reply.upvotedBy;
    var hasDownvoted := userId in reply.downvotedBy;
    if hasUpvoted {
      reply := reply.(upvotedBy := Pull(reply.upvotedBy, userId));
    } else {
      reply := reply.(upvotedBy := reply.upvotedBy + [userId]);
      if hasDownvoted {
        reply := reply.(downvotedBy := Pull(reply.downvotedBy, userId));
      }
    }
    reply := reply.(upvotes := |reply.upvotedBy|, downvotes := |reply.downvotedBy|);
    var d := found.value.(body := reply);
    var saved := db.SaveLoadedReply(d);
    if !saved {
      return Err(500, VALIDATION_FAILED);
    }
    resp := Ok(200, d);
  }

  /** `downvoteReply`. */
  method DownvoteReply(db: Store, caller: Caller, replyId: Id) returns (resp: Response<Doc<RM.Reply>>)
    requires db.Valid()
    modifies db
    ensures db.Valid()
    ensures Outcome(db.Snapshot(), resp) == Vote(old(db.Snapshot()), caller, replyId, false)
  {
    var found := FindById(db.replies, replyId);
    if found.None? {
      return Err(404, REPLY_NOT_FOUND);
    }
    var reply := found.value.body;
    var userId := caller.id;
    var hasUpvoted := userId in reply.upvotedBy;
    var hasDownvoted := userId in reply.downvotedBy;
    if hasDownvoted {
      reply := reply.(downvotedBy := Pull(reply.downvotedBy, userId));
    } else {
      reply := reply.(downvotedBy := reply.downvotedBy + [userId]);
      if hasUpvoted {
        reply := reply.(upvotedBy := Pull(reply.upvotedBy, userId));
      }
    }
    reply := reply.(upvotes := |reply.upvotedBy|, downvotes := |reply.downvotedBy|);
    var d := found.value.(body := reply);
    var saved := db.SaveLoadedReply(d);
    if !saved {
      return Err(500, VALIDATION_FAILED);
    }
    resp := Ok(200, d);
  }

  // ---------------------------------------------------------------------------
  // Properties
  // ---------------------------------------------------------------------------

  /** A user's standing on a reply. */
  datatype Standing = NoVote | Up | Down

  /** Nobody is in both lists. */
  ghost predicate Exclusive(r: RM.Reply) {
    forall v :: v in r.upvotedBy ==> v !in r.downvotedBy
  }

  function StandingOf(r: RM.Reply, u: Id): Standing {
    if u in r.upvotedBy then Up else if u in r.downvotedBy then Down else NoVote
  }

  /** An upvote withdraws a standing upvote and otherwise records one, taking back any
      downvote; the caller ends up in at most one list. Nobody else's membership of either
      list changes, and both counters equal the lists' lengths. */
  lemma UpvoteEffect(r: RM.Reply, u: Id)
    ensures var r' := Upvoted(r, u);
      && (u in r.upvotedBy ==> u !in r'.upvotedBy && r'.downvotedBy == r.downvotedBy)
      && (u !in r.upvotedBy ==> r'.upvotedBy == r.upvotedBy + [u] && u !in r'.downvotedBy)
      && (forall v :: v != u ==> (v in r'.upvotedBy <==> v in r.upvotedBy) && (v in r'.downvotedBy <==> v in r.downvotedBy))
      && RM.CountersMatch(r')
      && r' == r.(upvotedBy := r'.upvotedBy, downvotedBy := r'.downvotedBy, upvotes := r'.upvotes, downvotes := r'.downvotes)
  {
  }

  /** The mirror image for a downvote. */
  lemma DownvoteEffect(r: RM.Reply, u: Id)
    ensures var r' := Downvoted(r, u);
      && (u in r.downvotedBy ==> u !in r'.downvotedBy && r'.upvotedBy == r.upvotedBy)
      && (u !in r.downvotedBy ==> r'.downvotedBy == r.downvotedBy + [u] && u !in r'.upvotedBy)
      && (forall v :: v != u ==> (v in r'.upvotedBy <==> v in r.upvotedBy) && (v in r'.downvotedBy <==> v in r.downvotedBy))
      && RM.CountersMatch(r')
      && r' == r.(upvotedBy := r'.upvotedBy, downvotedBy := r'.downvotedBy, upvotes := r'.upvotes, downvotes := r'.downvotes)
  {
  }

  /** Both toggles keep the lists disjoint, and with disjoint lists they are a three-state
      machine: the voted direction flips between no vote and a vote that way, and a vote
      the other way is moved. */
  lemma VoteStateMachine(r: RM.Reply, u: Id)
    requires Exclusive(r)
    ensures Exclusive(Upvoted(r, u)) && Exclusive(Downvoted(r, u))
    ensures StandingOf(Upvoted(r, u), u) == if StandingOf(r, u) == Up then NoVote else Up
    ensures StandingOf(Downvoted(r, u), u) == if StandingOf(r, u) == Down then NoVote else Down
    ensures forall v :: v != u ==> StandingOf(Upvoted(r, u), v) == StandingOf(r, v) && StandingOf(Downvoted(r, u), v) == StandingOf(r, v)
  {
    UpvoteEffect(r, u);
    DownvoteEffect(r, u);
  }

  /** Voting the same way twice, starting from no vote with consistent counters, restores
      the reply exactly. */
  lemma VoteTwiceRestores(r: RM.Reply, u: Id)
    requires u !in r.upvotedBy && u !in r.downvotedBy && RM.CountersMatch(r)
    ensures Upvoted(Upvoted(r, u), u) == r
    ensures Downvoted(Downvoted(r, u), u) == r
  {
    PullAbsent(r.upvotedBy, u);
    PullAbsent(r.downvotedBy, u);
    assert Pull(r.upvotedBy + [u], u) == Pull(r.upvotedBy, u) + Pull([u], u) by {
      FilterAppend(r.upvotedBy, [u], v => v != u);
    }
    assert Pull(r.downvotedBy + [u], u) == Pull(r.downvotedBy, u) + Pull([u], u) by {
      FilterAppend(r.downvotedBy, [u], v => v != u);
    }
  }

  /** The handler answers 404 and writes nothing for a missing reply; otherwise it saves
      exactly the toggled reply in place (or answers 500 with nothing written when the
      toggled reply fails the schema) and changes no other document. */
  lemma VoteTouchesOneReply(st: State, caller: Caller, replyId: Id, up: bool)
    requires WellFormedState(st)
    ensures var o := Vote(st, caller, replyId, up);
      && (FindById(st.replies, replyId).None? ==> o == Outcome(st, Err(404, REPLY_NOT_FOUND)))
      && (o.resp.Ok? ==>
            && FindById(st.replies, replyId).Some?
            && var d := FindById(st.replies, replyId).value;
            && o.resp.body == d.(body := if up then Upvoted(d.body, caller.id) else Downvoted(d.body, caller.id))
            && o.st == st.(replies := o.st.replies) && |o.st.replies| == |st.replies|
            && (forall i :: 0 <= i < |st.replies| ==>
                  o.st.replies[i] == if st.replies[i].id == replyId then o.resp.body else st.replies[i]))
      && (o.resp.Err? ==> o.st == st)
  {
  }
}
