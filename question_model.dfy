/** The Question record of the city forum. */
module QuestionModel {
  import opened Docs
  import Text

  const AUTHOR_ROLES: seq<string> := ["tourist", "resident"]
  const MAX_TITLE: nat := 200
  const MAX_DESCRIPTION: nat := 2000

  datatype Question = Question(
    cityName: string,
    stateName: string,
    authorId: Id,
    authorName: string,
    authorRole: string,
    showAuthorProfile: bool,
    isVerifiedAuthor: bool,
    title: string,
    description: string,
    replyCount: int,
    viewCount: int)

  /** The schema's validators; `maxlength` counts UTF-16 code units. */
  predicate Valid(q: Question) {
    && q.authorName != "" && q.authorRole in AUTHOR_ROLES
    && q.title != "" && Text.Utf16Length(q.title) <= MAX_TITLE
    && q.description != "" && Text.Utf16Length(q.description) <= MAX_DESCRIPTION
  }

  /** `Question.create({...})`: the schema lower-cases the location, and both counters start at 0. */
  function New(cityName: string, stateName: string, authorId: Id, authorName: string, authorRole: string,
               showAuthorProfile: bool, title: string, description: string, isVerifiedAuthor: bool): (q: Question)
    ensures q.cityName == Text.Lower(cityName) && q.stateName == Text.Lower(stateName)
    ensures q.replyCount == 0 && q.viewCount == 0
    ensures Valid(q) <==> authorName != "" && authorRole in AUTHOR_ROLES && title != "" && Text.Utf16Length(title) <= MAX_TITLE
                          && description != "" && Text.Utf16Length(description) <= MAX_DESCRIPTION
  {
    Question(Text.Lower(cityName), Text.Lower(stateName), authorId, authorName, authorRole,
             showAuthorProfile, isVerifiedAuthor, title, description, 0, 0)
  }
}
