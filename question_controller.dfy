/**
  The question handlers of the city forum: `createQuestion`, `getQuestionsByCity` (one
  page of a city's questions, newest first), `getQuestionDetail` (which counts a view),
  `updateQuestion` and `deleteQuestion` (which also deletes the question's replies and
  notifications). Only a question's author may change or delete it.
 */
module QuestionController {
  import opened Wrappers
  import opened Docs
  import opened Http
  import opened Db
  import opened Sorting
  import Paging
  import Text
  import ReplyTree
  import QM = QuestionModel
  import RM = ReplyModel
  import NM = NotificationModel

  const ALL_FIELDS: string := "All fields are required"
  const BAD_ROLE: string := "Author role must be 'tourist' or 'resident'"
  const QUESTION_NOT_FOUND: string := "Question not found"
  const NOT_YOUR_EDIT: string := "You can only edit your own questions"
  const NOT_YOUR_DELETE: string := "You can only delete your own questions"
  /** The store's refusal of a negative `skip` (its wording is not modelled). */
  const NEGATIVE_SKIP: string := "skip must be non-negative"

  /** A create request body; an absent string is `""`. */
  datatype QuestionRequest = QuestionRequest(cityName: string, stateName: string, title: string,
                                             description: string, authorRole: string,
                                             showAuthorProfile: Option<bool>)

  /** `!cityName || !stateName || !title || !description || !authorRole`. */
  predicate MissingFields(req: QuestionRequest) {
    req.cityName == "" || req.stateName == "" || req.title == "" || req.description == "" || req.authorRole == ""
  }

  /** The document `Question.create` is given: the location lower-cased (the schema
      lower-cases it once more), the caller as author, the profile shown unless the body
      says `false`, and the author verified when the token claims `"contributor"`. */
  function NewQuestion(req: QuestionRequest, caller: Caller): QM.Question {
    QM.New(Text.Lower(req.cityName), Text.Lower(req.stateName), caller.id, caller.username, req.authorRole,
           req.showAuthorProfile != Some(false), req.title, req.description, caller.role == ROLE_CONTRIBUTOR)
  }

  // ---------------------------------------------------------------------------
  // createQuestion
  // ---------------------------------------------------------------------------

  function Create(st: State, caller: Caller, req: QuestionRequest, now: int): (o: Outcome<Doc<QM.Question>>)
    requires WellFormedState(st)
    ensures WellFormedState(o.st)
  {
    if MissingFields(req) then Outcome(st, Err(400, ALL_FIELDS))
    else if req.authorRole !in QM.AUTHOR_ROLES then Outcome(st, Err(400, BAD_ROLE))
    else
      var q := NewQuestion(req, caller);
      if !QM.Valid(q) then Outcome(st, Err(500, VALIDATION_FAILED))
      else Outcome(AddQuestion(st, q, now), Ok(201, Doc(st.nextId, now, q)))
  }

  method CreateQuestion(db: Store, caller: Caller, req: QuestionRequest, now: int)
    returns (resp: Response<Doc<QM.Question>>)
    requires db.Valid()
    modifies db
    ensures db.Valid()
    ensures Outcome(db.Snapshot(), resp) == Create(old(db.Snapshot()), caller, req, now)
  {
    if req.cityName == "" || req.stateName == "" || req.title == "" || req.description == "" || req.authorRole == "" {
      return Err(400, ALL_FIELDS);
    }
    if req.authorRole !in QM.AUTHOR_ROLES {
      return Err(400, BAD_ROLE);
    }
    var saved, question := db.SaveQuestion(NewQuestion(req, caller), now);
    if !saved {
      return Err(500, VALIDATION_FAILED);
    }
    resp := Ok(201, question);
  }

  // ---------------------------------------------------------------------------
  // getQuestionsByCity
  // ---------------------------------------------------------------------------

  /** The response body: `total`, `page`, `limit`, `pages` (`None` is JavaScript's
      `Infinity` or `NaN`, sent as `null`) and the page of questions. */
  datatype Listing = Listing(total: nat, page: int, limit: int, pages: Option<int>, questions: seq<Doc<QM.Question>>)

  /** The filter `{ cityName: city.toLowerCase(), stateName: state.toLowerCase() }`. */
  function InCity(city: string, state: string): Doc<QM.Question> -> bool {
    (d: Doc<QM.Question>) => d.body.cityName == Text.Lower(city) && d.body.stateName == Text.Lower(state)
  }

  /** The sort key of `.sort({ createdAt: -1 })`. */
  function Newest(d: Doc<QM.Question>): int { -d.createdAt }

  /** Every question of the city, newest first. */
  function CityQuestions(st: State, city: string, state: string): seq<Doc<QM.Question>> {
    SortBy(Filter(st.questions, InCity(city, state)), Newest)
  }

  /** The listing for the route parameters and the optional `page` and `limit`. */
  function List(st: State, city: string, state: string, page: Option<int>, limit: Option<int>): Response<Listing> {
    var p := Paging.OrDefault(page, Paging.DEFAULT_PAGE);
    var l := Paging.OrDefault(limit, Paging.DEFAULT_LIMIT);
    var skip := Paging.Skip(p, l);
    if skip < 0 then Err(500, NEGATIVE_SKIP)
    else
      var all := CityQuestions(st, city, state);
      Ok(200, Listing(|all|, p, l, Paging.Pages(|all|, l), Paging.Window(all, skip, l)))
  }

  /** `getQuestionsByCity`: reads the store and changes nothing. */
  method GetQuestionsByCity(db: Store, city: string, state: string, page: Option<int>, limit: Option<int>)
    returns (resp: Response<Listing>)
    ensures resp == List(db.Snapshot(), city, state, page, limit)
  {
    var p := if page.Some? then page.value else 1;
    var l := if limit.Some? then limit.value else 10;
    var skip := (p - 1) * l;
    if skip < 0 {
      return Err(500, NEGATIVE_SKIP);
    }
    var questions := SortBy(Filter(db.questions, InCity(city, state)), Newest);
    var total := |Filter(db.questions, InCity(city, state))|;
    resp := Ok(200, Listing(total, p, l, Paging.Pages(total, l), Paging.Window(questions, skip, l)));
  }

  // ---------------------------------------------------------------------------
  // getQuestionDetail
  // ---------------------------------------------------------------------------

  /** `$inc: { viewCount: 1 }`. */
  function Viewed(d: Doc<QM.Question>): Doc<QM.Question> {
    d.(body := d.body.(viewCount := d.body.viewCount + 1))
  }

  function Detail(st: State, questionId: Id): (o: Outcome<Doc<QM.Question>>)
    requires WellFormedState(st)
    ensures WellFormedState(o.st)
  {
    match FindById(st.questions, questionId)
    case None => Outcome(st, Err(404, QUESTION_NOT_FOUND))
    case Some(d) => Outcome(PutQuestion(st, Viewed(d)), Ok(200, Viewed(d)))
  }

  method GetQuestionDetail(db: Store, questionId: Id) returns (resp: Response<Doc<QM.Question>>)
    requires db.Valid()
    modifies db
    ensures db.Valid()
    ensures Outcome(db.Snapshot(), resp) == Detail(old(db.Snapshot()), questionId)
  {
    var found := FindById(db.questions, questionId);
    if found.None? {
      return Err(404, QUESTION_NOT_FOUND);
    }
    var question := Viewed(found.value);
    db.UpdateQuestion(question);
    resp := Ok(200, question);
  }

  // ---------------------------------------------------------------------------
  // updateQuestion
  // ---------------------------------------------------------------------------

  /** The update validators on the paths the body supplies: a title is required and at
      most 200 UTF-16 code units, a description required and at most 2000. */
  predicate EditAccepted(title: Option<string>, description: Option<string>) {
    && (title.Some? ==> title.value != "" && Text.Utf16Length(title.value) <= QM.MAX_TITLE)
    && (description.Some? ==> description.value != "" && Text.Utf16Length(description.value) <= QM.MAX_DESCRIPTION)
  }

  /** `{ title, description }`, an absent value leaving its field alone. */
  function Edited(d: Doc<QM.Question>, title: Option<string>, description: Option<string>): Doc<QM.Question> {
    d.(body := d.body.(title := if title.Some? then title.value else d.body.title,
                       description := if description.Some? then description.value else d.body.description))
  }

  function Update(st: State, caller: Caller, questionId: Id, title: Option<string>, description: Option<string>)
    : (o: Outcome<Doc<QM.Question>>)
    requires WellFormedState(st)
    ensures WellFormedState(o.st)
  {
    match FindById(st.questions, questionId)
    case None => Outcome(st, Err(404, QUESTION_NOT_FOUND))
    case Some(d) =>
      if d.body.authorId != caller.id then Outcome(st, Err(403, NOT_YOUR_EDIT))
      else if !EditAccepted(title, description) then Outcome(st, Err(500, VALIDATION_FAILED))
      else Outcome(PutQuestion(st, Edited(d, title, description)), Ok(200, Edited(d, title, description)))
  }

  method UpdateQuestion(db: Store, caller: Caller, questionId: Id, title: Option<string>, description: Option<string>)
    returns (resp: Response<Doc<QM.Question>>)
    requires db.Valid()
    modifies db
    ensures db.Valid()
    ensures Outcome(db.Snapshot(), resp) == Update(old(db.Snapshot()), caller, questionId, title, description)
  {
    var question := FindById(db.questions, questionId);
    if question.None? {
      return Err(404, QUESTION_NOT_FOUND);
    }
    if question.value.body.authorId != caller.id {
      return Err(403, NOT_YOUR_EDIT);
    }
    if title.Some? && (title.value == "" || Text.Utf16Length(title.value) > QM.MAX_TITLE) {
      return Err(500, VALIDATION_FAILED);
    }
    if description.Some? && (description.value == "" || Text.Utf16Length(description.value) > QM.MAX_DESCRIPTION) {
      return Err(500, VALIDATION_FAILED);
    }
    var updatedQuestion := Edited(question.value, title, description);
    db.UpdateQuestion(updatedQuestion);
    resp := Ok(200, updatedQuestion);
  }

  // ---------------------------------------------------------------------------
  // deleteQuestion
  // ---------------------------------------------------------------------------

  /** The filter `{ questionId }` on replies, negated. */
  function ReplyNotOf(questionId: Id): Doc<RM.Reply> -> bool {
    (d: Doc<RM.Reply>) => d.body.questionId != questionId
  }

  /** The filter `{ questionId }` on notifications, negated. */
  function NotificationNotOf(questionId: Id): Doc<NM.Notification> -> bool {
    (n: Doc<NM.Notification>) => n.body.questionId != questionId
  }

  function Delete(st: State, caller: Caller, questionId: Id): (o: Outcome<()>)
    requires WellFormedState(st)
    ensures WellFormedState(o.st)
  {
    match FindById(st.questions, questionId)
    case None => Outcome(st, Err(404, QUESTION_NOT_FOUND))
    case Some(d) =>
      if d.body.authorId != caller.id then Outcome(st, Err(403, NOT_YOUR_DELETE))
      else
        var st1 := KeepNotifications(KeepReplies(st, ReplyNotOf(questionId)), NotificationNotOf(questionId));
        Outcome(RemoveQuestion(st1, questionId), Ok(200, ()))
  }

  method DeleteQuestion(db: Store, caller: Caller, questionId: Id) returns (resp: Response<()>)
    requires db.Valid()
    modifies db
    ensures db.Valid()
    ensures Outcome(db.Snapshot(), resp) == Delete(old(db.Snapshot()), caller, questionId)
  {
    var question := FindById(db.questions, questionId);
    if question.None? {
      return Err(404, QUESTION_NOT_FOUND);
    }
    if question.value.body.authorId != caller.id {
      return Err(403, NOT_YOUR_DELETE);
    }
    db.DeleteRepliesWhere(ReplyNotOf(questionId));
    db.DeleteNotificationsWhere(NotificationNotOf(questionId));
    db.DeleteQuestion(questionId);
    resp := Ok(200, ());
  }

  // ---------------------------------------------------------------------------
  // Properties: createQuestion
  // ---------------------------------------------------------------------------

  /** The checks, in order: any missing field (400), an author role other than `tourist`
      or `resident` (400), then the schema (500); a rejection writes nothing. */
  lemma CreateRejections(st: State, caller: Caller, req: QuestionRequest, now: int)
    requires WellFormedState(st)
    ensures var o := Create(st, caller, req, now);
      && (MissingFields(req) ==> o == Outcome(st, Err(400, ALL_FIELDS)))
      && (!MissingFields(req) && req.authorRole !in QM.AUTHOR_ROLES ==> o == Outcome(st, Err(400, BAD_ROLE)))
      && (o.resp.Err? ==> o.st == st)
      && (o.resp.Ok? <==> CreateAccepted(caller, req))
  {
  }

  /** Every field is given, the role is one of the two, and the document passes the
      schema: a non-empty author name, a title of at most 200 UTF-16 code units and a
      description of at most 2000. */
  predicate CreateAccepted(caller: Caller, req: QuestionRequest) {
    && !MissingFields(req) && req.authorRole in QM.AUTHOR_ROLES && caller.username != ""
    && Text.Utf16Length(req.title) <= QM.MAX_TITLE && Text.Utf16Length(req.description) <= QM.MAX_DESCRIPTION
  }

  /** An accepted question is appended with a fresh id, answers 201, has the caller as
      author, a lower-cased location, both counters at 0 and the author verified exactly
      when the token claims `"contributor"`; no other collection changes. */
  lemma CreateStoresQuestion(st: State, caller: Caller, req: QuestionRequest, now: int)
    requires WellFormedState(st) && CreateAccepted(caller, req)
    ensures var o := Create(st, caller, req, now);
      && o.resp == Ok(201, o.st.questions[|st.questions|])
      && o.st == st.(questions := st.questions + [o.resp.body], nextId := st.nextId + 1)
      && var q := o.resp.body;
      && (forall d :: d in st.questions ==> d.id < q.id)
      && q.body.authorId == caller.id && q.body.authorName == caller.username
      && q.body.cityName == Text.Lower(req.cityName) && q.body.stateName == Text.Lower(req.stateName)
      && q.body.title == req.title && q.body.description == req.description
      && q.body.replyCount == 0 && q.body.viewCount == 0
      && (q.body.isVerifiedAuthor <==> caller.role == ROLE_CONTRIBUTOR)
      && (q.body.showAuthorProfile <==> req.showAuthorProfile != Some(false))
  {
    Text.LowerIdempotent(req.cityName);
    Text.LowerIdempotent(req.stateName);
  }

  // ---------------------------------------------------------------------------
  // Properties: getQuestionsByCity
  // ---------------------------------------------------------------------------

  /** The city's questions: exactly the stored ones whose lower-cased location matches,
      each once, newest first. */
  lemma CityQuestionsHas(st: State, city: string, state: string, d: Doc<QM.Question>)
    ensures d in CityQuestions(st, city, state) <==>
              d in st.questions && d.body.cityName == Text.Lower(city) && d.body.stateName == Text.Lower(state)
  {
    SortByMembership(Filter(st.questions, InCity(city, state)), Newest, d);
  }

  lemma CityQuestionsFacts(st: State, city: string, state: string, d: Doc<QM.Question>)
    requires WellFormedState(st)
    ensures var all := CityQuestions(st, city, state);
      && (d in all <==> d in st.questions && d.body.cityName == Text.Lower(city) && d.body.stateName == Text.Lower(state))
      && (d in all ==> multiset(all)[d] == 1)
      && (forall i, j :: 0 <= i < j < |all| ==> all[i].createdAt >= all[j].createdAt)
      && |all| == |Filter(st.questions, InCity(city, state))|
  {
    var fs := Filter(st.questions, InCity(city, state));
    SortBySorted(fs, Newest);
    CityQuestionsHas(st, city, state, d);
    var all := CityQuestions(st, city, state);
    assert forall i, j :: 0 <= i < j < |all| ==> Newest(all[i]) <= Newest(all[j]);
    if d in fs {
      FilterWellFormed(st.questions, InCity(city, state), st.nextId);
      OccursOnce(fs, d);
    }
  }

  /** A listing fails with 500 exactly when `(page - 1) * limit` is negative; otherwise
      `total` counts all of the city's questions and the page holds those at positions
      `skip`, `skip + 1`, … of the newest-first order, at most `|limit|` of them (all the
      rest for a limit of 0). */
  lemma ListingIsWindow(st: State, city: string, state: string, page: Option<int>, limit: Option<int>)
    requires WellFormedState(st)
    ensures var p := Paging.OrDefault(page, 1);
      var l := Paging.OrDefault(limit, 10);
      var r := List(st, city, state, page, limit);
      var all := CityQuestions(st, city, state);
      && (r.Err? <==> (p - 1) * l < 0)
      && (r.Ok? ==>
            var skip := (p - 1) * l;
            && r.body.total == |all| && r.body.page == p && r.body.limit == l
            && r.body.pages == Paging.Pages(|all|, l)
            && (skip <= |all| ==> r.body.questions <= all[skip..])
            && (skip > |all| ==> r.body.questions == [])
            && (l != 0 ==> |r.body.questions| <= if l > 0 then l else -l)
            && (l == 0 && skip <= |all| ==> r.body.questions == all[skip..]))
  {
  }

  /** With a positive limit, every question of the city is listed on one of the pages
      `1..pages`. */
  lemma ListedOnSomePage(st: State, city: string, state: string, limit: int, d: Doc<QM.Question>)
    requires WellFormedState(st) && limit > 0
    requires d in st.questions && d.body.cityName == Text.Lower(city) && d.body.stateName == Text.Lower(state)
    ensures exists page :: 1 <= page && ListedOn(st, city, state, page, limit, d)
  {
    var all := CityQuestions(st, city, state);
    CityQuestionsHas(st, city, state, d);
    var i :| 0 <= i < |all| && all[i] == d;
    var page := i / limit + 1;
    Paging.EveryItemOnSomePage(|all|, limit, i);
    var skip := Paging.Skip(page, limit);
    WindowHolds(all, skip, limit, i);
    ListOfPage(st, city, state, page, limit);
    assert ListedOn(st, city, state, page, limit, d);
  }

  /** Page `page` of the listing with limit `limit` exists and shows `d`. */
  predicate ListedOn(st: State, city: string, state: string, page: int, limit: int, d: Doc<QM.Question>) {
    var r := List(st, city, state, Some(page), Some(limit));
    r.Ok? && r.body.pages.Some? && page <= r.body.pages.value && d in r.body.questions
  }

  /** From page 1 on, with a positive limit, a listing succeeds. */
  lemma ListOfPage(st: State, city: string, state: string, page: int, limit: int)
    requires page >= 1 && limit > 0
    ensures var all := CityQuestions(st, city, state);
      List(st, city, state, Some(page), Some(limit))
        == Ok(200, Listing(|all|, page, limit, Paging.Pages(|all|, limit), Paging.Window(all, Paging.Skip(page, limit), limit)))
  {
    Paging.MulMonotone(0, page - 1, limit);
  }

  /** A window with a positive limit holds each position from `skip` to `skip + limit - 1`. */
  lemma WindowHolds<T>(all: seq<T>, skip: nat, limit: int, i: nat)
    requires limit > 0 && skip <= i < skip + limit && i < |all|
    ensures all[i] in Paging.Window(all, skip, limit)
  {
    var w := Paging.Window(all, skip, limit);
    assert w == if limit >= |all| - skip then all[skip..] else all[skip..][..limit];
    assert w[i - skip] == all[i];
  }

  /** An accepted question is counted in its city's listing, whatever the capitalisation
      of the route's city and state names, and appears at once on the first page. */
  lemma CreatedIsListed(st: State, caller: Caller, req: QuestionRequest, now: int, city: string, state: string)
    requires WellFormedState(st) && CreateAccepted(caller, req)
    requires Text.EqualsIgnoreCase(city, req.cityName) && Text.EqualsIgnoreCase(state, req.stateName)
    requires forall d :: d in st.questions ==> d.createdAt <= now
    ensures var o := Create(st, caller, req, now);
      && o.resp.body in CityQuestions(o.st, city, state)
      && |CityQuestions(o.st, city, state)| == |CityQuestions(st, city, state)| + 1
      && CityQuestions(o.st, city, state)[0].createdAt == now
  {
    var o := Create(st, caller, req, now);
    CreateStoresQuestion(st, caller, req, now);
    var q := o.resp.body;
    var keep := InCity(city, state);
    assert keep(q);
    var all := CityQuestions(o.st, city, state);
    assert |all| == |CityQuestions(st, city, state)| + 1 by {
      FilterAppend(st.questions, [q], keep);
      assert Filter([q], keep) == [q];
    }
    CityQuestionsHas(o.st, city, state, q);
    assert all[0].createdAt == now by {
      assert all[0] in all;
      CityQuestionsHas(o.st, city, state, all[0]);
      CityQuestionsFacts(o.st, city, state, q);
      HeadIsNewest(all, q);
    }
  }

  /** In a newest-first list holding `q`, where nothing is newer than `q`, the head is
      as new as `q`. */
  lemma HeadIsNewest(all: seq<Doc<QM.Question>>, q: Doc<QM.Question>)
    requires q in all && all[0].createdAt <= q.createdAt
    requires forall i, j :: 0 <= i < j < |all| ==> all[i].createdAt >= all[j].createdAt
    ensures all[0].createdAt == q.createdAt
  {
    var i :| 0 <= i < |all| && all[i] == q;
    if i > 0 {
      assert all[0].createdAt >= all[i].createdAt;
    }
  }

  // ---------------------------------------------------------------------------
  // Properties: getQuestionDetail
  // ---------------------------------------------------------------------------

  /** A view of a missing question answers 404 and writes nothing; otherwise it answers
      the question with its `viewCount` one higher and stores that, every other field
      and every other question unchanged. */
  lemma DetailEffect(st: State, questionId: Id, k: Id)
    requires WellFormedState(st)
    ensures var o := Detail(st, questionId);
      && (FindById(st.questions, questionId).None? ==> o == Outcome(st, Err(404, QUESTION_NOT_FOUND)))
      && (FindById(st.questions, questionId).Some? ==>
            var d := FindById(st.questions, questionId).value;
            && o.resp.Ok? && o.resp.body.id == questionId
            && o.resp.body.body.viewCount == d.body.viewCount + 1
            && o.resp.body.body.(viewCount := d.body.viewCount) == d.body
            && FindById(o.st.questions, questionId) == Some(o.resp.body))
      && (k != questionId ==> FindById(o.st.questions, k) == FindById(st.questions, k))
      && o.st == st.(questions := o.st.questions)
  {
    if FindById(st.questions, questionId).Some? {
      var d := FindById(st.questions, questionId).value;
      FindByIdReplace(st.questions, Viewed(d), questionId);
      FindByIdReplace(st.questions, Viewed(d), k);
    }
  }

  /** Two views count two. */
  lemma ViewedTwice(st: State, questionId: Id)
    requires WellFormedState(st) && FindById(st.questions, questionId).Some?
    ensures var o := Detail(Detail(st, questionId).st, questionId);
      o.resp.Ok? && o.resp.body.body.viewCount == FindById(st.questions, questionId).value.body.viewCount + 2
  {
    DetailEffect(st, questionId, questionId);
  }

  // ---------------------------------------------------------------------------
  // Properties: updateQuestion
  // ---------------------------------------------------------------------------

  /** 404 for a missing question, 403 for anyone but its author, 500 for a supplied
      title or description the validators refuse, none of them writing; otherwise the
      supplied fields replace the stored ones, nothing else of the question changes and
      no other question changes. */
  lemma UpdateEffect(st: State, caller: Caller, questionId: Id, title: Option<string>, description: Option<string>, k: Id)
    requires WellFormedState(st)
    ensures var o := Update(st, caller, questionId, title, description);
      && (FindById(st.questions, questionId).None? ==> o == Outcome(st, Err(404, QUESTION_NOT_FOUND)))
      && (FindById(st.questions, questionId).Some? && FindById(st.questions, questionId).value.body.authorId != caller.id ==>
            o == Outcome(st, Err(403, NOT_YOUR_EDIT)))
      && (o.resp.Err? ==> o.st == st)
      && (o.resp.Ok? ==>
            var d := FindById(st.questions, questionId).value;
            var e := o.resp.body;
            && d.body.authorId == caller.id && EditAccepted(title, description)
            && e.id == d.id && e.createdAt == d.createdAt
            && e.body.title == (if title.Some? then title.value else d.body.title)
            && e.body.description == (if description.Some? then description.value else d.body.description)
            && e.body.(title := d.body.title, description := d.body.description) == d.body
            && FindById(o.st.questions, questionId) == Some(e))
      && (k != questionId ==> FindById(o.st.questions, k) == FindById(st.questions, k))
      && o.st == st.(questions := o.st.questions)
  {
    if FindById(st.questions, questionId).Some? {
      var d := FindById(st.questions, questionId).value;
      FindByIdReplace(st.questions, Edited(d, title, description), questionId);
      FindByIdReplace(st.questions, Edited(d, title, description), k);
    }
  }

  /** Although the update validators only look at the supplied paths, a question that
      passed the schema still passes it after an accepted update. */
  lemma UpdateKeepsSchema(st: State, caller: Caller, questionId: Id, title: Option<string>, description: Option<string>)
    requires WellFormedState(st) && AllSatisfy(st.questions, QM.Valid)
    ensures AllSatisfy(Update(st, caller, questionId, title, description).st.questions, QM.Valid)
  {
    var o := Update(st, caller, questionId, title, description);
    if o.resp.Ok? {
      var d := FindById(st.questions, questionId).value;
      var e := Edited(d, title, description);
      assert QM.Valid(e.body);
      forall x | x in o.st.questions ensures QM.Valid(x.body) {
        assert x in Replace(st.questions, e);
      }
    }
  }

  // ---------------------------------------------------------------------------
  // Properties: deleteQuestion
  // ---------------------------------------------------------------------------

  /** 404 for a missing question and 403 for anyone but its author, neither writing. */
  lemma DeleteRejections(st: State, caller: Caller, questionId: Id)
    requires WellFormedState(st)
    ensures var o := Delete(st, caller, questionId);
      && (FindById(st.questions, questionId).None? ==> o == Outcome(st, Err(404, QUESTION_NOT_FOUND)))
      && (FindById(st.questions, questionId).Some? && FindById(st.questions, questionId).value.body.authorId != caller.id ==>
            o == Outcome(st, Err(403, NOT_YOUR_DELETE)))
      && (o.resp.Err? ==> o.st == st)
      && (o.resp.Ok? <==> DeleteAccepted(st, caller, questionId))
  {
  }

  predicate DeleteAccepted(st: State, caller: Caller, questionId: Id) {
    FindById(st.questions, questionId).Some? && FindById(st.questions, questionId).value.body.authorId == caller.id
  }

  /** An accepted delete removes the question, every reply to it and every notification
      about it, whoever received it, and nothing else. */
  lemma DeleteCascades(st: State, caller: Caller, questionId: Id)
    requires WellFormedState(st) && DeleteAccepted(st, caller, questionId)
    ensures var o := Delete(st, caller, questionId);
      && o.resp == Ok(200, ())
      && (forall x :: x in o.st.questions <==> x in st.questions && x.id != questionId)
      && (forall x :: x in o.st.replies <==> x in st.replies && x.body.questionId != questionId)
      && (forall n :: n in o.st.notifications <==> n in st.notifications && n.body.questionId != questionId)
      && o.st == st.(questions := o.st.questions, replies := o.st.replies, notifications := o.st.notifications)
  {
  }

  /** After an accepted delete the question is gone for every reader: its detail answers
      404, its thread lists no reply, and it is in no city's listing. */
  lemma DeletedIsGone(st: State, caller: Caller, questionId: Id, city: string, state: string)
    requires WellFormedState(st) && DeleteAccepted(st, caller, questionId)
    ensures var st' := Delete(st, caller, questionId).st;
      && Detail(st', questionId).resp == Err(404, QUESTION_NOT_FOUND)
      && ReplyTree.Replies(st', questionId) == Ok(200, ReplyTree.Forest([], map[]))
      && forall d :: d in CityQuestions(st', city, state) ==> d.id != questionId
  {
    var st' := Delete(st, caller, questionId).st;
    DeleteCascades(st, caller, questionId);
    FilterNone(st'.replies, ReplyTree.OfQuestion(questionId));
    forall d | d in CityQuestions(st', city, state) ensures d.id != questionId {
      CityQuestionsFacts(st', city, state, d);
    }
  }
}
