/** The Reply record: an answer to a question, or (with a parent) to another reply. */
module ReplyModel {
  import opened Wrappers
  import opened Docs
  import Text

  const AUTHOR_ROLES: seq<string> := ["tourist", "resident"]
  const MAX_CONTENT: nat := 2000

  datatype Reply = Reply(
    questionId: Id,
    authorId: Id,
    authorName: string,
    authorRole: string,
    showAuthorProfile: bool,
    isVerifiedAuthor: bool,
    content: string,
    parentReplyId: Option<Id>,
    upvotedBy: seq<Id>,
    downvotedBy: seq<Id>,
    upvotes: int,
    downvotes: int,
    editedAt: Option<int>)

  /** The schema's validators: required name, role in the enum, required content of at most
      2000 UTF-16 code units. */
  predicate Valid(r: Reply) {
    r.authorName != "" && r.authorRole in AUTHOR_ROLES && r.content != "" && Text.Utf16Length(r.content) <= MAX_CONTENT
  }

  /** A reply without a parent is a top-level answer to its question. */
  predicate IsTopLevel(r: Reply) { r.parentReplyId.None? }

  /** `Reply.create({...})`: no votes yet, both counters 0, never edited. */
  function New(questionId: Id, parentReplyId: Option<Id>, authorId: Id, authorName: string,
               authorRole: string, showAuthorProfile: bool, content: string, isVerifiedAuthor: bool): (r: Reply)
    ensures r.upvotedBy == [] && r.downvotedBy == [] && r.upvotes == 0 && r.downvotes == 0
    ensures r.editedAt.None? && r.parentReplyId == parentReplyId && r.questionId == questionId
    ensures Valid(r) <==> authorName != "" && authorRole in AUTHOR_ROLES && content != "" && Text.Utf16Length(content) <= MAX_CONTENT
  {
    Reply(questionId, authorId, authorName, authorRole, showAuthorProfile, isVerifiedAuthor, content,
          parentReplyId, [], [], 0, 0, None)
  }

  /** The stored counters agree with the vote lists. */
  predicate CountersMatch(r: Reply) {
    r.upvotes == |r.upvotedBy| && r.downvotes == |r.downvotedBy|
  }
}
