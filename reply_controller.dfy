/**
  The reply handlers that write: `createReply` (an answer to a question),
  `createNestedReply` (an answer to a reply), `updateReply` and `deleteReply`. Each
  checks its inputs or the caller's authorship before any write; the question's
  `replyCount` goes up only for a top-level answer but down for every deletion.
 */
module ReplyController {
  import opened Wrappers
  import opened Docs
  import opened Http
  import opened Db
  import Text
  import ReplyVotes
  import ReplyTree
  import RM = ReplyModel
  import QM = QuestionModel
  import NM = NotificationModel

  const ALL_FIELDS: string := "All fields are required"
  const BAD_ROLE: string := "Author role must be 'tourist' or 'resident'"
  const QUESTION_NOT_FOUND: string := "Question not found"
  const PARENT_NOT_FOUND: string := "Parent reply not found"
  const NOT_YOUR_EDIT: string := "You can only edit your own replies"
  const NOT_YOUR_DELETE: string := "You can only delete your own replies"
  /** The `TypeError` of reading `stateName` of a question that is gone. */
  const NULL_QUESTION: string := "Cannot read properties of null (reading 'stateName')"

  /** A create request body; an absent string is `""` and an absent id `None`. */
  datatype ReplyRequest = ReplyRequest(target: Option<Id>, content: string, authorRole: string, showAuthorProfile: Option<bool>)

  /** `!target || !content || !authorRole`. */
  predicate MissingFields(req: ReplyRequest) {
    req.target.None? || req.content == "" || req.authorRole == ""
  }

  /** `showAuthorProfile !== false`: only an explicit `false` hides the profile. */
  function ShowProfile(v: Option<bool>): bool { v != Some(false) }

  /** `req.user.role === "contributor"`: the token's claim, not the stored role. */
  function IsVerified(caller: Caller): bool { caller.role == ROLE_CONTRIBUTOR }

  function NewReply(req: ReplyRequest, questionId: Id, parent: Option<Id>, caller: Caller): RM.Reply {
    RM.New(questionId, parent, caller.id, caller.username, req.authorRole, ShowProfile(req.showAuthorProfile),
           req.content, IsVerified(caller))
  }

  function QuestionNotification(q: Doc<QM.Question>, caller: Caller, reply: Doc<RM.Reply>, now: int): NM.Notification {
    NM.New(q.body.authorId, caller.id, NM.ReplyToQuestion, q.id, reply.id, q.body.stateName, q.body.cityName,
           caller.username + " replied to your question", now)
  }

  function ReplyNotification(parent: Doc<RM.Reply>, q: Doc<QM.Question>, caller: Caller, reply: Doc<RM.Reply>, now: int): NM.Notification {
    NM.New(parent.body.authorId, caller.id, NM.ReplyToReply, parent.body.questionId, reply.id, q.body.stateName,
           q.body.cityName, caller.username + " replied to your reply", now)
  }

  // ---------------------------------------------------------------------------
  // createReply
  // ---------------------------------------------------------------------------

  function Create(st: State, caller: Caller, req: ReplyRequest, now: int): (o: Outcome<Doc<RM.Reply>>)
    requires WellFormedState(st)
    ensures WellFormedState(o.st)
  {
    if MissingFields(req) then Outcome(st, Err(400, ALL_FIELDS))
    else if req.authorRole !in RM.AUTHOR_ROLES then Outcome(st, Err(400, BAD_ROLE))
    else match FindById(st.questions, req.target.value)
      case None => Outcome(st, Err(404, QUESTION_NOT_FOUND))
      case Some(q) =>
        var r := NewReply(req, q.id, None, caller);
        if !RM.Valid(r) then Outcome(st, Err(500, VALIDATION_FAILED))
        else
          var d := Doc(st.nextId, now, r);
          var st1 := IncReplyCount(AddReply(st, r, now), q.id, 1);
          if q.body.authorId != caller.id
          then Outcome(AddNotification(st1, QuestionNotification(q, caller, d, now), now), Ok(201, d))
          else Outcome(st1, Ok(201, d))
  }

  method CreateReply(db: Store, caller: Caller, req: ReplyRequest, now: int) returns (resp: Response<Doc<RM.Reply>>)
    requires db.Valid()
    modifies db
    ensures db.Valid()
    ensures Outcome(db.Snapshot(), resp) == Create(old(db.Snapshot()), caller, req, now)
  {
    if req.target.None? || req.content == "" || req.authorRole == "" {
      return Err(400, ALL_FIELDS);
    }
    if req.authorRole !in RM.AUTHOR_ROLES {
      return Err(400, BAD_ROLE);
    }
    var questionId := req.target.value;
    var question := FindById(db.questions, questionId);
    if question.None? {
      return Err(404, QUESTION_NOT_FOUND);
    }
    var saved, reply := db.SaveReply(NewReply(req, questionId, None, caller), now);
    if !saved {
      return Err(500, VALIDATION_FAILED);
    }
    db.AddToReplyCount(questionId, 1);
    if question.value.body.authorId != caller.id {
      var n := db.InsertNotification(QuestionNotification(question.value, caller, reply, now), now);
    }
    resp := Ok(201, reply);
  }

  // ---------------------------------------------------------------------------
  // createNestedReply
  // ---------------------------------------------------------------------------

  function CreateNested(st: State, caller: Caller, req: ReplyRequest, now: int): (o: Outcome<Doc<RM.Reply>>)
    requires WellFormedState(st)
    ensures WellFormedState(o.st)
  {
    if MissingFields(req) then Outcome(st, Err(400, ALL_FIELDS))
    else if req.authorRole !in RM.AUTHOR_ROLES then Outcome(st, Err(400, BAD_ROLE))
    else match FindById(st.replies, req.target.value)
      case None => Outcome(st, Err(404, PARENT_NOT_FOUND))
      case Some(parent) =>
        var r := NewReply(req, parent.body.questionId, Some(parent.id), caller);
        if !RM.Valid(r) then Outcome(st, Err(500, VALIDATION_FAILED))
        else
          var d := Doc(st.nextId, now, r);
          var st1 := AddReply(st, r, now);
          if parent.body.authorId == caller.id then Outcome(st1, Ok(201, d))
          else match FindById(st1.questions, parent.body.questionId)
            case None => Outcome(st1, Err(500, NULL_QUESTION))
            case Some(q) => Outcome(AddNotification(st1, ReplyNotification(parent, q, caller, d, now), now), Ok(201, d))
  }

  method CreateNestedReply(db: Store, caller: Caller, req: ReplyRequest, now: int) returns (resp: Response<Doc<RM.Reply>>)
    requires db.Valid()
    modifies db
    ensures db.Valid()
    ensures Outcome(db.Snapshot(), resp) == CreateNested(old(db.Snapshot()), caller, req, now)
  {
    if req.target.None? || req.content == "" || req.authorRole == "" {
      return Err(400, ALL_FIELDS);
    }
    if req.authorRole !in RM.AUTHOR_ROLES {
      return Err(400, BAD_ROLE);
    }
    var parentReplyId := req.target.value;
    var parentReply := FindById(db.replies, parentReplyId);
    if parentReply.None? {
      return Err(404, PARENT_NOT_FOUND);
    }
    var parent := parentReply.value;
    var saved, nestedReply := db.SaveReply(NewReply(req, parent.body.questionId, Some(parentReplyId), caller), now);
    if !saved {
      return Err(500, VALIDATION_FAILED);
    }
    if parent.body.authorId != caller.id {
      var question := FindById(db.questions, parent.body.questionId);
      if question.None? {
        return Err(500, NULL_QUESTION);
      }
      var n := db.InsertNotification(ReplyNotification(parent, question.value, caller, nestedReply, now), now);
    }
    resp := Ok(201, nestedReply);
  }

  // ---------------------------------------------------------------------------
  // updateReply
  // ---------------------------------------------------------------------------

  /** The update validators on `content` when the body supplies it: required, at most
      2000 UTF-16 code units. */
  predicate ContentAccepted(content: Option<string>) {
    content.Some? ==> content.value != "" && Text.Utf16Length(content.value) <= RM.MAX_CONTENT
  }

  function Edited(d: Doc<RM.Reply>, content: Option<string>, now: int): Doc<RM.Reply> {
    d.(body := d.body.(content := if content.Some? then content.value else d.body.content, editedAt := Some(now)))
  }

  function Update(st: State, caller: Caller, replyId: Id, content: Option<string>, now: int): (o: Outcome<Doc<RM.Reply>>)
    requires WellFormedState(st)
    ensures WellFormedState(o.st)
  {
    match FindById(st.replies, replyId)
    case None => Outcome(st, Err(404, ReplyVotes.REPLY_NOT_FOUND))
    case Some(d) =>
      if d.body.authorId != caller.id then Outcome(st, Err(403, NOT_YOUR_EDIT))
      else if !ContentAccepted(content) then Outcome(st, Err(500, VALIDATION_FAILED))
      else Outcome(PutReply(st, Edited(d, content, now)), Ok(200, Edited(d, content, now)))
  }

  method UpdateReply(db: Store, caller: Caller, replyId: Id, content: Option<string>, now: int)
    returns (resp: Response<Doc<RM.Reply>>)
    requires db.Valid()
    modifies db
    ensures db.Valid()
    ensures Outcome(db.Snapshot(), resp) == Update(old(db.Snapshot()), caller, replyId, content, now)
  {
    var reply := FindById(db.replies, replyId);
    if reply.None? {
      return Err(404, ReplyVotes.REPLY_NOT_FOUND);
    }
    if reply.value.body.authorId != caller.id {
      return Err(403, NOT_YOUR_EDIT);
    }
    if content.Some? && (content.value == "" || Text.Utf16Length(content.value) > RM.MAX_CONTENT) {
      return Err(500, VALIDATION_FAILED);
    }
    var updatedReply := Edited(reply.value, content, now);
    db.UpdateReply(updatedReply);
    resp := Ok(200, updatedReply);
  }

  // ---------------------------------------------------------------------------
  // deleteReply
  // ---------------------------------------------------------------------------

  /** The filter `{ parentReplyId: id }`, negated. */
  function NotChildOf(id: Id): Doc<RM.Reply> -> bool {
    (d: Doc<RM.Reply>) => d.body.parentReplyId != Some(id)
  }

  /** The filter `{ replyId: id }`, negated. */
  function NotAbout(id: Id): Doc<NM.Notification> -> bool {
    (n: Doc<NM.Notification>) => n.body.replyId != Some(id)
  }

  function Delete(st: State, caller: Caller, replyId: Id): (o: Outcome<()>)
    requires WellFormedState(st)
    ensures WellFormedState(o.st)
  {
    match FindById(st.replies, replyId)
    case None => Outcome(st, Err(404, ReplyVotes.REPLY_NOT_FOUND))
    case Some(d) =>
      if d.body.authorId != caller.id then Outcome(st, Err(403, NOT_YOUR_DELETE))
      else
        var st1 := if RM.IsTopLevel(d.body) then KeepReplies(st, NotChildOf(replyId)) else st;
        var st2 := RemoveReply(KeepNotifications(st1, NotAbout(replyId)), replyId);
        Outcome(IncReplyCount(st2, d.body.questionId, -1), Ok(200, ()))
  }

  method DeleteReply(db: Store, caller: Caller, replyId: Id) returns (resp: Response<()>)
    requires db.Valid()
    modifies db
    ensures db.Valid()
    ensures Outcome(db.Snapshot(), resp) == Delete(old(db.Snapshot()), caller, replyId)
  {
    var reply := FindById(db.replies, replyId);
    if reply.None? {
      return Err(404, ReplyVotes.REPLY_NOT_FOUND);
    }
    if reply.value.body.authorId != caller.id {
      return Err(403, NOT_YOUR_DELETE);
    }
    var questionId := reply.value.body.questionId;
    if reply.value.body.parentReplyId.None? {
      db.DeleteRepliesWhere(NotChildOf(replyId));
    }
    db.DeleteNotificationsWhere(NotAbout(replyId));
    db.DeleteReply(replyId);
    db.AddToReplyCount(questionId, -1);
    resp := Ok(200, ());
  }

  // ---------------------------------------------------------------------------
  // Properties
  // ---------------------------------------------------------------------------

  /** Both creates check, in order, for a missing field (400), an author role other than
      `tourist` or `resident` (400) and a missing question or parent reply (404), and
      write nothing when rejecting. */
  lemma CreateRejections(st: State, caller: Caller, req: ReplyRequest, now: int)
    requires WellFormedState(st)
    ensures var o := Create(st, caller, req, now); var n := CreateNested(st, caller, req, now);
      && (MissingFields(req) ==> o == n == Outcome(st, Err(400, ALL_FIELDS)))
      && (!MissingFields(req) && req.authorRole !in RM.AUTHOR_ROLES ==> o == n == Outcome(st, Err(400, BAD_ROLE)))
      && (!MissingFields(req) && req.authorRole in RM.AUTHOR_ROLES ==>
            && (FindById(st.questions, req.target.value).None? ==> o == Outcome(st, Err(404, QUESTION_NOT_FOUND)))
            && (FindById(st.replies, req.target.value).None? ==> n == Outcome(st, Err(404, PARENT_NOT_FOUND))))
  {
  }

  /** The request passes every check of `createReply` and the new reply the schema. */
  predicate CreateAccepted(st: State, caller: Caller, req: ReplyRequest) {
    && !MissingFields(req) && req.authorRole in RM.AUTHOR_ROLES
    && FindById(st.questions, req.target.value).Some?
    && RM.Valid(NewReply(req, req.target.value, None, caller))
  }

  lemma CreateOkIff(st: State, caller: Caller, req: ReplyRequest, now: int)
    requires WellFormedState(st)
    ensures Create(st, caller, req, now).resp.Ok? <==> CreateAccepted(st, caller, req)
    ensures !CreateAccepted(st, caller, req) ==> Create(st, caller, req, now).st == st
  {
  }

  /** A successful `createReply` appends one reply to the question: top-level, by the
      caller, showing the profile unless `false` was sent, verified exactly for a
      `"contributor"` claim, and with no votes. */
  lemma CreateStoresReply(st: State, caller: Caller, req: ReplyRequest, now: int)
    requires WellFormedState(st) && CreateAccepted(st, caller, req)
    ensures var o := Create(st, caller, req, now);
      var q := FindById(st.questions, req.target.value).value;
      var r := o.resp.body;
      && o.resp.status == 201 && r.id == st.nextId && o.st.replies == st.replies + [r]
      && r.body.questionId == q.id && r.body.parentReplyId.None? && r.body.authorId == caller.id
      && r.body.authorName == caller.username && r.body.content == req.content
      && r.body.showAuthorProfile == (req.showAuthorProfile != Some(false))
      && r.body.isVerifiedAuthor == (caller.role == ROLE_CONTRIBUTOR)
      && r.body.upvotedBy == [] && r.body.downvotedBy == [] && r.body.upvotes == 0 && r.body.downvotes == 0
  {
  }

  /** The writes of a successful `createReply`, step by step. */
  lemma CreateIsSteps(st: State, caller: Caller, req: ReplyRequest, now: int)
    requires WellFormedState(st) && CreateAccepted(st, caller, req)
    ensures var q := FindById(st.questions, req.target.value).value;
      var r := NewReply(req, q.id, None, caller);
      var st1 := IncReplyCount(AddReply(st, r, now), q.id, 1);
      Create(st, caller, req, now).st ==
        if q.body.authorId != caller.id
        then AddNotification(st1, QuestionNotification(q, caller, Doc(st.nextId, now, r), now), now)
        else st1
  {
  }

  /** The question the reply answers has its `replyCount` raised by one; no other question
      changes. */
  lemma CreateCountsReply(st: State, caller: Caller, req: ReplyRequest, now: int, k: Id)
    requires WellFormedState(st) && CreateAccepted(st, caller, req)
    ensures var o := Create(st, caller, req, now);
      var q := FindById(st.questions, req.target.value).value;
      && FindById(o.st.questions, q.id) == Some(Bumped(q, 1))
      && (k != q.id ==> FindById(o.st.questions, k) == FindById(st.questions, k))
  {
    var q := FindById(st.questions, req.target.value).value;
    var st0 := AddReply(st, NewReply(req, q.id, None, caller), now);
    var qs := IncReplyCount(st0, q.id, 1).questions;
    CreateIsSteps(st, caller, req, now);
    assert Create(st, caller, req, now).st.questions == qs;
    IncReplyCountEffect(st0, q.id, 1, k);
    assert FindById(st0.questions, q.id) == Some(q);
    assert FindById(qs, q.id) == Some(Bumped(q, 1));
  }

  /** The question's author gets one unread notification naming the replier, the question,
      the reply and the question's location, unless the replier is that author, in which
      case no notification is written. */
  lemma CreateNotifiesAuthor(st: State, caller: Caller, req: ReplyRequest, now: int)
    requires WellFormedState(st) && CreateAccepted(st, caller, req)
    ensures var o := Create(st, caller, req, now);
      var q := FindById(st.questions, req.target.value).value;
      && (q.body.authorId == caller.id ==> o.st.notifications == st.notifications)
      && (q.body.authorId != caller.id ==>
            && |o.st.notifications| == |st.notifications| + 1
            && o.st.notifications[..|st.notifications|] == st.notifications
            && var n := o.st.notifications[|st.notifications|].body;
            && n.recipientId == q.body.authorId && n.senderId == caller.id && n.kind == NM.ReplyToQuestion
            && n.questionId == q.id && n.replyId == Some(o.resp.body.id) && !n.isRead
            && n.message == caller.username + " replied to your question"
            && n.state == q.body.stateName && n.city == q.body.cityName)
  {
    var q := FindById(st.questions, req.target.value).value;
    var r := NewReply(req, q.id, None, caller);
    var st1 := IncReplyCount(AddReply(st, r, now), q.id, 1);
    assert st1.notifications == st.notifications;
  }

  /** A nested reply takes its question from the parent and names the parent; no
      question's `replyCount` changes. The parent's author is notified unless they are the
      caller; when the parent's question is gone the request then fails with 500 after the
      reply has been written. */
  lemma NestedEffect(st: State, caller: Caller, req: ReplyRequest, now: int)
    requires WellFormedState(st)
    requires !MissingFields(req) && req.authorRole in RM.AUTHOR_ROLES && FindById(st.replies, req.target.value).Some?
    requires RM.Valid(NewReply(req, FindById(st.replies, req.target.value).value.body.questionId, req.target, caller))
    ensures var o := CreateNested(st, caller, req, now);
      var parent := FindById(st.replies, req.target.value).value;
      var r := Doc(st.nextId, now, NewReply(req, parent.body.questionId, req.target, caller));
      && o.st.replies == st.replies + [r] && o.st.questions == st.questions
      && r.body.questionId == parent.body.questionId && r.body.parentReplyId == Some(parent.id)
      && (parent.body.authorId == caller.id ==> o == Outcome(AddReply(st, r.body, now), Ok(201, r)))
      && (parent.body.authorId != caller.id && FindById(st.questions, parent.body.questionId).None? ==>
            o == Outcome(AddReply(st, r.body, now), Err(500, NULL_QUESTION)))
      && (parent.body.authorId != caller.id && FindById(st.questions, parent.body.questionId).Some? ==>
            && o.resp == Ok(201, r)
            && |o.st.notifications| == |st.notifications| + 1
            && o.st.notifications[..|st.notifications|] == st.notifications
            && var n := o.st.notifications[|st.notifications|].body;
            && n.recipientId == parent.body.authorId && n.kind == NM.ReplyToReply && n.replyId == Some(r.id)
            && n.message == caller.username + " replied to your reply")
  {
  }

  /** Only the author may edit (404 for a missing reply, 403 for anyone else, nothing
      written). An accepted edit replaces that reply's content when one is given, stamps
      `editedAt`, and changes nothing else in the store. */
  lemma UpdateEffect(st: State, caller: Caller, replyId: Id, content: Option<string>, now: int)
    requires WellFormedState(st)
    ensures var o := Update(st, caller, replyId, content, now);
      && (FindById(st.replies, replyId).None? ==> o == Outcome(st, Err(404, ReplyVotes.REPLY_NOT_FOUND)))
      && (FindById(st.replies, replyId).Some? && FindById(st.replies, replyId).value.body.authorId != caller.id ==>
            o == Outcome(st, Err(403, NOT_YOUR_EDIT)))
      && (o.resp.Err? ==> o.st == st)
      && (o.resp.Ok? ==>
            && var d := FindById(st.replies, replyId).value;
            && d.body.authorId == caller.id
            && o.resp.body == d.(body := o.resp.body.body)
            && o.resp.body.body == d.body.(content := o.resp.body.body.content, editedAt := Some(now))
            && o.resp.body.body.content == (if content.Some? then content.value else d.body.content)
            && o.st == st.(replies := o.st.replies) && |o.st.replies| == |st.replies|
            && (forall i :: 0 <= i < |st.replies| ==>
                  o.st.replies[i] == if st.replies[i].id == replyId then o.resp.body else st.replies[i]))
  {
  }

  /** Only the author may delete: 404 for a missing reply, 403 for anyone else, and
      nothing is written. */
  lemma DeleteRejections(st: State, caller: Caller, replyId: Id)
    requires WellFormedState(st)
    ensures var o := Delete(st, caller, replyId);
      && (FindById(st.replies, replyId).None? ==> o == Outcome(st, Err(404, ReplyVotes.REPLY_NOT_FOUND)))
      && (FindById(st.replies, replyId).Some? && FindById(st.replies, replyId).value.body.authorId != caller.id ==>
            o == Outcome(st, Err(403, NOT_YOUR_DELETE)))
      && (o.resp.Err? ==> o.st == st)
      && (o.resp.Ok? <==> DeleteAccepted(st, caller, replyId))
  {
  }

  /** The reply exists and the caller wrote it. */
  predicate DeleteAccepted(st: State, caller: Caller, replyId: Id) {
    FindById(st.replies, replyId).Some? && FindById(st.replies, replyId).value.body.authorId == caller.id
  }

  /** The state after an accepted delete, step by step. */
  function DeleteSteps(st: State, d: Doc<RM.Reply>): (r: State)
    requires WellFormedState(st)
    ensures WellFormedState(r)
  {
    var st1 := if RM.IsTopLevel(d.body) then KeepReplies(st, NotChildOf(d.id)) else st;
    RemoveReply(KeepNotifications(st1, NotAbout(d.id)), d.id)
  }

  lemma DeleteIsSteps(st: State, caller: Caller, replyId: Id)
    requires WellFormedState(st) && DeleteAccepted(st, caller, replyId)
    ensures var d := FindById(st.replies, replyId).value;
      Delete(st, caller, replyId).st == IncReplyCount(DeleteSteps(st, d), d.body.questionId, -1)
  {
  }

  /** An accepted delete removes the reply, and for a top-level reply also its direct
      children, and no other reply; it removes exactly the notifications about the reply,
      and changes no collection but replies, notifications and questions. */
  lemma DeleteCascades(st: State, caller: Caller, replyId: Id)
    requires WellFormedState(st) && DeleteAccepted(st, caller, replyId)
    ensures var o := Delete(st, caller, replyId);
      var d := FindById(st.replies, replyId).value;
      && (forall x :: x in o.st.replies <==>
            x in st.replies && x.id != replyId && !(RM.IsTopLevel(d.body) && x.body.parentReplyId == Some(replyId)))
      && (forall n :: n in o.st.notifications <==> n in st.notifications && n.body.replyId != Some(replyId))
      && o.st == st.(replies := o.st.replies, notifications := o.st.notifications, questions := o.st.questions)
  {
    DeleteIsSteps(st, caller, replyId);
  }

  /** An accepted delete lowers its question's `replyCount` by exactly one and touches no
      other question. */
  lemma DeleteDecrements(st: State, caller: Caller, replyId: Id, k: Id)
    requires WellFormedState(st) && DeleteAccepted(st, caller, replyId)
    ensures var o := Delete(st, caller, replyId);
      var qid := FindById(st.replies, replyId).value.body.questionId;
      && (k != qid ==> FindById(o.st.questions, k) == FindById(st.questions, k))
      && (FindById(st.questions, qid).Some? ==>
            var q := FindById(st.questions, qid).value;
            FindById(o.st.questions, qid) == Some(Bumped(q, -1)))
  {
    var d := FindById(st.replies, replyId).value;
    var qid := d.body.questionId;
    DeleteIsSteps(st, caller, replyId);
    var st2 := DeleteSteps(st, d);
    var st3 := IncReplyCount(st2, qid, -1);
    assert Delete(st, caller, replyId).st.questions == st3.questions;
    assert st2.questions == st.questions;
    IncReplyCountEffect(st2, qid, -1, k);
    IncReplyCountEffect(st2, qid, -1, qid);
  }

  /** The counter drifts: a nested reply leaves `replyCount` alone when created, but
      deleting it again lowers the question's `replyCount` by one. */
  lemma NestedCreateThenDeleteDrifts(st: State, caller: Caller, req: ReplyRequest, now: int)
    requires WellFormedState(st) && CreateNested(st, caller, req, now).resp.Ok?
    ensures var o1 := CreateNested(st, caller, req, now);
      var r := o1.resp.body;
      var o2 := Delete(o1.st, caller, r.id);
      && o2.resp.Ok?
      && o1.st.questions == st.questions
      && (FindById(st.questions, r.body.questionId).Some? ==>
            var q := FindById(st.questions, r.body.questionId).value;
            FindById(o2.st.questions, r.body.questionId) == Some(Bumped(q, -1)))
  {
    var o1 := CreateNested(st, caller, req, now);
    var r := o1.resp.body;
    NestedEffect(st, caller, req, now);
    assert o1.st.replies[|st.replies|] == r;
    FindByIdUnique(o1.st.replies, |st.replies|);
    DeleteDecrements(o1.st, caller, r.id, r.body.questionId);
  }

  /** Deleting a nested reply leaves its own answers behind with a parent that no longer
      exists, and from then on listing the question's replies fails with 500. */
  lemma DeletingAnsweredNestedReplyBreaksListing(st: State, caller: Caller, replyId: Id, c: Doc<RM.Reply>)
    requires WellFormedState(st) && DeleteAccepted(st, caller, replyId)
    requires !RM.IsTopLevel(FindById(st.replies, replyId).value.body)
    requires c in st.replies && c.id != replyId && c.body.parentReplyId == Some(replyId)
    ensures ReplyTree.Replies(Delete(st, caller, replyId).st, c.body.questionId).Err?
  {
    var o := Delete(st, caller, replyId);
    DeleteCascades(st, caller, replyId);
    assert c in o.st.replies;
    ReplyTree.RepliesOfFacts(o.st, c.body.questionId, c);
    var rs := ReplyTree.RepliesOf(o.st, c.body.questionId);
    assert replyId !in ReplyTree.IdsOf(rs) by {
      forall x | x in rs ensures x.id != replyId {
        ReplyTree.RepliesOfFacts(o.st, c.body.questionId, x);
      }
    }
    ReplyTree.ListingIsForest(o.st, c.body.questionId, c);
  }
}
