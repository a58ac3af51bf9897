# SheherJaano backend — a Dafny model

SheherJaano is a city guide. Signed-in users submit places of four kinds: hidden spots, famous foods, handicrafts and history records. They ask and answer questions about a city, vote on answers, and receive notifications when someone replies to them. A user whose first item is a new place is promoted from `user` to `contributor`. A contributor whose items have all been deleted is demoted back.

The model covers the following:

- the Express and Mongoose backend behind the four submission routes, the contributions page, the city hero images, the question, reply and notification controllers, registration and the Mongoose models;
- the zod schemas of the register and sign-in forms.

## How the model is built

- **The database** is one object, `Db.Store` (`store.dfy`). It has one `seq` of documents per collection and a counter for fresh ObjectIds. `Doc<T>` is a document: its `_id`, its `createdAt` timestamp and its body.
- **Handlers.** Every request handler is a `method` that changes the store. Each method is proved equal to a pure function of the old store: `Outcome(db.Snapshot(), resp) == Submit(old(db.Snapshot()), ...)`. The system's properties are then lemmas about those functions.
- **Errors.** A handler's answer is a `Response<T>`, either `Ok(status, body)` or `Err(status, message)`. Every refusal the source makes on a well-formed request is modelled as an `Err`. Ids are always well-formed ObjectIds; see "## Left out".
- **Validation.** Mongoose's `save` and `create` run the schema validators before writing. A document that fails them is refused with 500 and nothing is written. Each model file states its schema's validators as a `Valid` predicate.
- **Absent fields.** A missing or empty request string is `""` where the code only tests its truthiness or passes it on, because both are falsy in JavaScript. Two kinds of field are `Option<string>`, with `None` for absent:
  - a field with a schema default, because Mongoose applies a default only to an absent value and keeps and validates an empty string: the history `category`, and the handicraft `category` and `priceRange`;
  - a name that the duplicate lookup interpolates into a template literal, because an absent value renders there as the text `undefined`: the hidden-spot `spotName`, the food `foodName` and the history `placeName`. `Http.Interpolated` gives that text, and `Http.OrEmpty` gives the `""` that the geocoder's defaults and the saved document see.
- **Lengths.** zod's `min` and `max` and Mongoose's `maxlength` count JavaScript's `length`, in UTF-16 code units. `Text.Utf16Length` counts two for a character outside the Basic Multilingual Plane and one for any other.
- **Oracles.** The following are parameters of the model:
  - the Photon geocoder's answer to each query;
  - `parseFloat` of a manual coordinate;
  - the current time;
  - the email check of the forms;
  - the answer of the users collection's unique indexes to an insert.
- **The form resolver.** A `z.string()` chain reports the message of every failing check, in chain order. The object-level `refine` also runs. The form shows, for each field, the first issue reported on its path. This is zod 3's behaviour.

## Model

| member | source | states |
|---|---|---|
| HiddenSpotRoutes.Existing | backend/src/routes/hiddenSpotRoutes.js:46-50 | finds a stored hidden spot in the same city and state whose name matches the interpolated request name case-insensitively, and answers None exactly when there is none |
| HiddenSpotRoutes.LookupName | backend/src/routes/hiddenSpotRoutes.js:46-50 | without a `spotName` the lookup finds a spot named "undefined" in any capitalisation; with one it finds that name |
| HiddenSpotRoutes.CreateHiddenSpot | backend/src/routes/hiddenSpotRoutes.js:27-151 | the handler's new store and answer are those of `Submit`: geocode, look up, then contribute or create, then promote |
| HiddenSpotRoutes.ExistingGetsContribution | backend/src/routes/hiddenSpotRoutes.js:56-74 | when the spot exists, exactly one "hidden-spot" Contribution by the caller is appended, pointing at it and suggesting hours, fee, best time and address; no place collection changes; a success answers 200 |
| HiddenSpotRoutes.NoMatchCreatesOneSpot | backend/src/routes/hiddenSpotRoutes.js:80-102 | without a match, either the new spot fails the schema (500, nothing written) or exactly one spot is appended, owned by the caller, at the geocoder's coordinates, and 201 answers with it |
| HiddenSpotRoutes.PromotionIffFirstPlace | backend/src/routes/hiddenSpotRoutes.js:107-143 | `newRole` is set exactly when the role claim is "user" and the caller's five-collection place count after the write is 1; the stored role then becomes "contributor" and the token carries the stored role; otherwise no role changes |
| HiddenSpotRoutes.FirstContributionNotPromoted | backend/src/routes/hiddenSpotRoutes.js:107-118 | a "user" with no items whose first item is a contribution owns one item afterwards, yet is not promoted, because contributions are not counted here |
| HiddenSpotModel.New | backend/src/models/hiddenSpotModel.js:3-101 | a new spot takes the schema's defaults (rating 0, not approved) and is valid exactly when the name, address, state and city are given and the category is in the enum |
| FamousFoodRoutes.PlacesWithGeo | backend/src/routes/famousFoodRoutes.js:47-69 | one sub-document per input place, in order, with its text fields copied and the geocoder's answer for it as coordinates |
| FamousFoodRoutes.GeocodePlaces | backend/src/routes/famousFoodRoutes.js:47-69 | the loop over `places` computes `PlacesWithGeo` |
| FamousFoodRoutes.Existing | backend/src/routes/famousFoodRoutes.js:72-76 | a case-insensitive match of the interpolated name in the same city and state, None exactly when there is none |
| FamousFoodRoutes.LookupName | backend/src/routes/famousFoodRoutes.js:72-76 | without a `foodName` the lookup finds a food named "undefined" in any capitalisation; with one it finds that name |
| FamousFoodRoutes.CreateFamousFood | backend/src/routes/famousFoodRoutes.js:28-166 | the handler's new store and answer are those of `Submit` |
| FamousFoodRoutes.NoPlacesRejected | backend/src/routes/famousFoodRoutes.js:42-44 | missing or empty `places` answers 400 before any geocoding or write |
| FamousFoodRoutes.ExistingGetsContribution | backend/src/routes/famousFoodRoutes.js:82-98 | a match gets exactly one "food" Contribution by the caller suggesting the geocoded places and the category; no place collection changes |
| FamousFoodRoutes.NoMatchSavesOneFood | backend/src/routes/famousFoodRoutes.js:103-120 | without a match, a schema failure (500, nothing written) or exactly one food owned by the caller holding the geocoded places, answered with 201 |
| FamousFoodRoutes.PromotionIffFirstItem | backend/src/routes/famousFoodRoutes.js:123-160 | promotion happens exactly for a "user" claim whose six-collection total after the write is 1; the store and token then say "contributor" |
| FamousFoodModel.New | backend/src/models/famousFoodModel.js:39-111 | defaults (rating 0, not approved), and valid exactly when the name, state and city are given, the category is in the enum and `places` is non-empty with every place valid |
| HandicraftRoutes.GeoAddress | backend/src/routes/handicraftRoutes.js:50-60 | the geocoded address is the first market's address when it is given, else "city, state" |
| HandicraftRoutes.Existing | backend/src/routes/handicraftRoutes.js:74-78 | a case-insensitive name match in the same city and state, None exactly when there is none |
| HandicraftRoutes.CreateHandicraft | backend/src/routes/handicraftRoutes.js:26-176 | the handler's new store and answer are those of `Submit` |
| HandicraftRoutes.MissingFieldsRejected | backend/src/routes/handicraftRoutes.js:44-49 | without a name, description, state or city the answer is 400 and nothing is written |
| HandicraftRoutes.ExistingGetsContribution | backend/src/routes/handicraftRoutes.js:84-100 | a match gets exactly one "handicraft" Contribution by the caller suggesting price range and markets, answered with 200 |
| HandicraftRoutes.PromotionIffFirstItem | backend/src/routes/handicraftRoutes.js:132-169 | of a successful request: 201 exactly for a new place; promotion exactly for a "user" claim with a six-collection total of 1 |
| HandicraftModel.FromSubmission | backend/src/routes/handicraftRoutes.js:108-127 | the document the route builds: category "Other" and price range "Varies" only when absent, an empty string kept as given; no `originCity` or `createdBy`; owned by the caller, not approved |
| HandicraftModel.SubmissionNeverValid | backend/src/models/handicraftModel.js:20-54 | whatever is submitted, that document fails validation, because the required `originCity` and `createdBy` are never set |
| HistoryRoutes.Existing | backend/src/routes/historyRoutes.js:82-86 | a case-insensitive match of the interpolated name in the same city and state, None exactly when there is none |
| HistoryRoutes.LookupName | backend/src/routes/historyRoutes.js:82-86 | without a `placeName` the lookup finds a place named "undefined" in any capitalisation; with one it finds that name |
| HistoryRoutes.Content | backend/src/routes/historyRoutes.js:100 | the contribution content is `historyDescription` when given, else `shortDescription` |
| HistoryRoutes.CreateHistory | backend/src/routes/historyRoutes.js:28-184 | the handler's new store and answer are those of `Submit`; the record built before the lookup is never saved; a new record is saved only when it passes the schema, with an empty `category` not defaulted |
| HistoryRoutes.ExistingGetsContribution | backend/src/routes/historyRoutes.js:92-109 | a match gets exactly one "history" Contribution by the caller with the chosen content and suggesting era, builder and year |
| HistoryRoutes.NoMatchSavesOneHistory | backend/src/routes/historyRoutes.js:114-140 | without a match, a schema failure (500, nothing written) or exactly one record owned by the caller at the geocoder's coordinates, answered with 201 |
| HistoryRoutes.EmptyCategoryRejected | backend/src/routes/historyRoutes.js:114-140 | a new place sent with `category: ""` is not given the "Other" default; it fails the enum, so the answer is 500 and nothing is written |
| HistoryRoutes.AtMostOneHistory | backend/src/routes/historyRoutes.js:59-139 | a request adds at most one history record and never removes one |
| HistoryRoutes.PromotionIffFirstItem | backend/src/routes/historyRoutes.js:143-180 | of a successful request: 201 exactly for a new place; promotion exactly for a "user" claim with a six-collection total of 1 |
| HistoryModel.New | backend/src/models/historyModel.js:3-103 | defaults (category "Other" only when absent, rating 0, not approved), owned by the caller, at the given coordinates; valid exactly when the required text fields are given and a given category, the empty one included, is in the enum |
| Submission.PromoteFacts | backend/src/routes/famousFoodRoutes.js:123-148 | promotion happens exactly when the claim is "user", the total is 1 and the user exists; it stores "contributor" and mints a token with it; it throws exactly when the user is missing; only the caller's role can change |
| Submission.Promote | backend/src/routes/hiddenSpotRoutes.js:107-131 | the promotion step changes the users collection only, so no item count moves |
| Geocode.Fetch | backend/src/utils/geocode.js:16-40 | a failed request, an empty or missing `features`, or a first feature without coordinates gives [0, 0]; otherwise the first feature's coordinates |
| Geocode.GetCoordinates | backend/src/utils/geocode.js:3-60 | the early-returning loop computes `Resolve`: manual coordinates, else the first non-origin answer of the waterfall, else [0, 0] |
| Geocode.ManualOverride | backend/src/utils/geocode.js:12-14 | with both manual values truthy the answer is [longitude, latitude] and Photon is never consulted |
| Geocode.ManualZeroFallsThrough | backend/src/utils/geocode.js:12 | a manual 0 or empty value is falsy, so the waterfall runs |
| Geocode.QueriesMostSpecificFirst | backend/src/utils/geocode.js:43-47 | each query is the next one with a more specific leading part |
| Geocode.FirstNonOriginIsFirst | backend/src/utils/geocode.js:49-59 | the result is the answer of the first query not answered with [0, 0], or [0, 0] when every answer is |
| Geocode.AllLookupsFail | backend/src/utils/geocode.js:49-59 | with no manual values and every lookup failing, the result is [0, 0] |
| ContributionController.ParseModel | backend/src/controllers/contributionController.js:182-222 | `modelMap[model]` holds a place model exactly for the five own keys, the one named by that key; an inherited `Object.prototype` key (`constructor`, `toString`, `__proto__`, …) gives a distinct truthy entry; anything else gives none |
| ContributionController.ParseModelName | backend/src/controllers/contributionController.js:182-188 | every place model is found under its own key |
| ContributionController.DeleteContribution | backend/src/controllers/contributionController.js:192-286 | the handler's new store and answer are those of `Delete` |
| ContributionController.DeleteOkIffOwner | backend/src/controllers/contributionController.js:201-242 | a delete succeeds exactly when the caller owns the Contribution or created place it names; every refusal (400, 401, 404, 500) leaves the store unchanged; the answer is 500 exactly for an inherited `modelMap` key in the created-item case |
| ContributionController.OwnContributionOkIffOwner | backend/src/controllers/contributionController.js:201-216 | the contribution case: 404 when missing, 401 when another user's, success exactly for the owner |
| ContributionController.CreatedItemOkIffOwner | backend/src/controllers/contributionController.js:218-242 | the created-item case: 400 for a name `modelMap` does not hold or an item without a creator, 500 for an inherited key (its missing `findById` throws a TypeError), 404 when missing, 401 when another user's, success exactly for the creator |
| ContributionController.FamousSpotNeverDeleted | backend/src/controllers/contributionController.js:225-233 | a famous spot records no creator, so deleting one answers 400 (or 404) and changes nothing |
| ContributionController.ContributionDeleteRemovesOne | backend/src/controllers/contributionController.js:212-216 | a successful contribution delete removes exactly that document, keeps the other Contributions in order, and removes no place |
| ContributionController.PlaceDeleteRemovesOne | backend/src/controllers/contributionController.js:224-242 | a successful place delete cuts out of its collection exactly the document with the requested id, keeping the others in order; the other place collections, the famous spots and the contributions pointing at it stay |
| ContributionController.DowngradeIffNoItems | backend/src/controllers/contributionController.js:246-280 | after a successful delete `totalItems` is the owner's six-collection total, `roleUpdated` is true exactly when it is 0, the owner's role is then "user", and no other role changes |
| ContributionController.OwnContributionRoleRule | backend/src/controllers/contributionController.js:246-280 | the same rule after deleting a contribution |
| ContributionController.CreatedItemRoleRule | backend/src/controllers/contributionController.js:246-280 | the same rule after deleting a created place |
| ContributionController.GetContributions | backend/src/controllers/contributionController.js:9-179 | the map, the five push loops and the final sort compute `Listing` |
| ContributionController.PushAll | backend/src/controllers/contributionController.js:97-167 | a push loop appends the formatted documents in order |
| ContributionController.ListingSortedAndCounted | backend/src/controllers/contributionController.js:170-174 | the listing is newest first, with one entry per item the caller owns across the six collections |
| ContributionController.ListingContainsEverything | backend/src/controllers/contributionController.js:28-167 | every Contribution of the caller is listed as a contribution and never as a new place; every place of the four creator-recording kinds the caller created is listed as created |
| ContributionController.ListingHasNothingElse | backend/src/controllers/contributionController.js:28-167 | every entry is one of those; no famous spot is ever listed |
| ContributionModel.KindNamesAreTheEnum | backend/src/models/contributionModel.js:17-21 | the five kinds are exactly the enum's strings, each once, and none is "spot" |
| ContributionModel.New | backend/src/models/contributionModel.js:3-64 | a new contribution is pending and carries the given place, user, kind and suggested changes |
| FamousSpotModel.NeverOwned | backend/src/models/famousSpotModel.js:3-63 | a famous spot has no `user` path, so none counts towards anyone's items |
| AllImagesRoute.Take | backend/src/routes/allImagesRoute.js:56 | `.slice(0, n)` is a prefix of length min(n, length) |
| AllImagesRoute.HeroImagesBounded | backend/src/routes/allImagesRoute.js:46-58 | at most 10 images, none empty, taken from the front of the merged and filtered list |
| AllImagesRoute.OnlyFourCollectionsContribute | backend/src/routes/allImagesRoute.js:24-56 | famous spots and contributions never supply an image; the answer draws on hidden spots, foods, handicrafts and histories only, in that order |
| AllImagesRoute.PlaceImagesComplete | backend/src/routes/allImagesRoute.js:24-52 | each image of each hidden spot, food, handicraft and history with the requested state and city is among the place images |
| AllImagesRoute.SmallCityShowsEveryImage | backend/src/routes/allImagesRoute.js:24-56 | when the city has at most 10 non-empty place images, the answer holds exactly the non-empty place images |
| QuestionController.CreateQuestion | backend/src/controllers/questionController.js:6-51 | the handler's new store and answer are those of `Create` |
| QuestionController.CreateRejections | backend/src/controllers/questionController.js:13-25 | a missing field answers 400, then a role other than tourist or resident answers 400, and neither writes |
| QuestionController.CreateStoresQuestion | backend/src/controllers/questionController.js:27-43 | an accepted question is appended under a fresh id with the location lower-cased, the caller as author, verified exactly for a "contributor" claim, the profile shown unless `false` was sent, and answered with 201 |
| QuestionModel.New | backend/src/models/questionModel.js:3-70 | the location is lower-cased, both counters start at 0, and the question is valid exactly when the name, role, title and description meet the schema's requirements, with the 200 and 2000 limits counted in UTF-16 code units |
| QuestionController.GetQuestionsByCity | backend/src/controllers/questionController.js:54-90 | reads the store and changes nothing; the answer is `List` |
| QuestionController.CityQuestionsHas | backend/src/controllers/questionController.js:61-65 | the city's questions are exactly the stored ones whose lower-cased location matches |
| QuestionController.CityQuestionsFacts | backend/src/controllers/questionController.js:61-73 | the city's questions are newest first, each once, and `total` counts them |
| QuestionController.ListingIsWindow | backend/src/controllers/questionController.js:57-82 | the listing fails with 500 exactly when `(page-1)*limit` is negative; otherwise it is the `limit`-window at that offset of the newest-first list, with `pages` the ceiling of total/limit |
| QuestionController.ListedOnSomePage | backend/src/controllers/questionController.js:57-81 | with a positive limit every question of the city appears on one of pages 1..pages |
| QuestionController.ListOfPage | backend/src/controllers/questionController.js:57-59 | from page 1 on with a positive limit the listing succeeds |
| QuestionController.CreatedIsListed | backend/src/controllers/questionController.js:27-81 | an accepted question is listed for its city whatever the capitalisation of the query; the city's count rises by one and the new question heads the list |
| QuestionController.GetQuestionDetail | backend/src/controllers/questionController.js:93-121 | the handler's new store and answer are those of `Detail` |
| QuestionController.DetailEffect | backend/src/controllers/questionController.js:97-113 | a missing question answers 404 and writes nothing; otherwise its `viewCount` rises by one, nothing else changes, and the updated question is returned |
| QuestionController.ViewedTwice | backend/src/controllers/questionController.js:97-101 | two views raise `viewCount` by two |
| QuestionController.UpdateQuestion | backend/src/controllers/questionController.js:124-165 | the handler's new store and answer are those of `Update` |
| QuestionController.UpdateEffect | backend/src/controllers/questionController.js:130-157 | 404 for a missing question, 403 for a caller other than its author, 500 when a supplied title or description fails its validator, none writing; otherwise only the supplied fields change |
| QuestionController.UpdateKeepsSchema | backend/src/controllers/questionController.js:147-151 | when every stored question passes the schema, every one still does after any update request |
| QuestionController.DeleteQuestion | backend/src/controllers/questionController.js:168-210 | the handler's new store and answer are those of `Delete` |
| QuestionController.DeleteRejections | backend/src/controllers/questionController.js:173-188 | 404 for a missing question, 403 for a caller other than its author, neither writing |
| QuestionController.DeleteCascades | backend/src/controllers/questionController.js:190-197 | an accepted delete removes the question, every reply to it and every notification about it, and nothing else |
| QuestionController.DeletedIsGone | backend/src/controllers/questionController.js:168-197 | afterwards the question's detail answers 404, its replies list as an empty forest, and its city no longer lists it |
| ReplyController.CreateReply | backend/src/controllers/replyController.js:6-81 | the handler's new store and answer are those of `Create` |
| ReplyController.CreateNestedReply | backend/src/controllers/replyController.js:84-155 | the handler's new store and answer are those of `CreateNested` |
| ReplyController.CreateRejections | backend/src/controllers/replyController.js:13-34 | both creates check for a missing field (400), a role other than tourist or resident (400) and a missing question or parent (404), in that order, and write nothing when refusing |
| ReplyController.CreateOkIff | backend/src/controllers/replyController.js:13-72 | `createReply` succeeds exactly when the request passes every check and the new reply passes the schema |
| ReplyController.CreateStoresReply | backend/src/controllers/replyController.js:37-45 | an accepted reply is appended as a top-level reply by the caller, verified exactly for a "contributor" claim, showing the profile unless `false` was sent, with no votes |
| ReplyController.CreateIsSteps | backend/src/controllers/replyController.js:37-72 | the writes of a successful create, in order: the reply, the counter, the notification |
| ReplyController.CreateCountsReply | backend/src/controllers/replyController.js:47-52 | the answered question's `replyCount` rises by one and no other question changes |
| ReplyController.CreateNotifiesAuthor | backend/src/controllers/replyController.js:54-67 | the question's author receives one unread notification naming the replier, the question and the reply, unless the replier is that author |
| ReplyController.NestedEffect | backend/src/controllers/replyController.js:105-141 | a nested reply takes the parent's question, names the parent and changes no `replyCount`; the parent's author is notified unless they are the caller; when the question is gone the request answers 500 after the reply is written |
| ReplyModel.New | backend/src/models/replyModel.js:3-80 | a new reply has no votes, never-edited, and is valid exactly when the name, role and content meet the schema, content at most 2000 UTF-16 code units |
| ReplyController.UpdateReply | backend/src/controllers/replyController.js:202-243 | the handler's new store and answer are those of `Update` |
| ReplyController.UpdateEffect | backend/src/controllers/replyController.js:208-235 | 404 for a missing reply and 403 for anyone but its author, neither writing; an accepted edit replaces the content when given, stamps `editedAt` and changes nothing else |
| ReplyController.DeleteReply | backend/src/controllers/replyController.js:246-299 | the handler's new store and answer are those of `Delete` |
| ReplyController.DeleteRejections | backend/src/controllers/replyController.js:251-266 | 404 for a missing reply and 403 for anyone but its author, neither writing |
| ReplyController.DeleteIsSteps | backend/src/controllers/replyController.js:268-286 | an accepted delete is the sequence of its four writes |
| ReplyController.DeleteCascades | backend/src/controllers/replyController.js:270-279 | an accepted delete removes the reply and, for a top-level reply, its direct children, and no other reply; exactly the notifications about it go; only replies, notifications and questions change |
| ReplyController.DeleteDecrements | backend/src/controllers/replyController.js:281-286 | the question's `replyCount` falls by exactly one and no other question changes |
| ReplyController.NestedCreateThenDeleteDrifts | backend/src/controllers/replyController.js:114-124 | creating a nested reply leaves `replyCount` alone, but deleting it lowers it by one |
| ReplyController.DeletingAnsweredNestedReplyBreaksListing | backend/src/controllers/replyController.js:270-279 | deleting a nested reply leaves its own answers with a missing parent, after which listing the question's replies answers 500 |
| ReplyTree.EmptyNodes | backend/src/controllers/replyController.js:168-171 | the first loop gives every fetched reply an empty `children` list |
| ReplyTree.Attach | backend/src/controllers/replyController.js:176-184 | one turn of the second loop puts the reply under its parent, or among the roots, and fails when the parent has no node |
| ReplyTree.BuildForest | backend/src/controllers/replyController.js:167-184 | the two loops either fail or build the forest in which each reply's children are the fetched replies naming it as parent, in fetch order |
| ReplyTree.GetRepliesByQuestion | backend/src/controllers/replyController.js:158-198 | reads the store and changes nothing; the answer is `Replies` |
| ReplyTree.RepliesOfFacts | backend/src/controllers/replyController.js:163-165 | the fetched replies are exactly the question's replies, oldest first, each once |
| ReplyTree.ForestPlacesEachReply | backend/src/controllers/replyController.js:176-184 | each fetched reply is placed as often as it was fetched, as a root without a parent and otherwise only under its parent; every placed reply was fetched |
| ReplyTree.ListingIsForest | backend/src/controllers/replyController.js:158-190 | the listing answers 500 exactly when some reply names a parent outside the question; otherwise every reply appears once, in the right place, and every list is oldest first |
| ReplyVotes.Pull | backend/src/controllers/replyController.js:318 | after `pull` the list holds exactly its other users and is no longer than before |
| ReplyVotes.UpvoteReply | backend/src/controllers/replyController.js:302-348 | the handler's new store and answer are those of `Vote` upwards |
| ReplyVotes.DownvoteReply | backend/src/controllers/replyController.js:352-398 | the handler's new store and answer are those of `Vote` downwards |
| ReplyVotes.UpvoteEffect | backend/src/controllers/replyController.js:313-331 | an upvote withdraws an upvote, or else records one and takes back any downvote; nobody else's votes change; both counters equal the lists' lengths |
| ReplyVotes.DownvoteEffect | backend/src/controllers/replyController.js:363-381 | the mirror image for a downvote |
| ReplyVotes.VoteStateMachine | backend/src/controllers/replyController.js:313-381 | both toggles keep the vote lists disjoint and form a three-state machine: none, up and down |
| ReplyVotes.VoteTwiceRestores | backend/src/controllers/replyController.js:313-331 | voting the same way twice from no vote restores the reply |
| ReplyVotes.VoteTouchesOneReply | backend/src/controllers/replyController.js:307-338 | 404 for a missing reply with nothing written; otherwise exactly that reply is saved toggled (or 500 on a schema failure, nothing written) and no other document changes |
| NotificationModel.New | backend/src/models/notificationModel.js:3-62 | a new notification is unread, expires 30 days after creation, and carries the given recipient, question and reply |
| NotificationController.GetUserNotifications | backend/src/controllers/notificationController.js:4-42 | reads the store and changes nothing; the answer is `List` |
| NotificationController.GetUnreadCount | backend/src/controllers/notificationController.js:45-65 | reads the store and changes nothing; the answer is the caller's unread count |
| NotificationController.InboxFacts | backend/src/controllers/notificationController.js:11-19 | the inbox holds exactly the caller's notifications, newest first, each once |
| NotificationController.UnreadAtMostTotal | backend/src/controllers/notificationController.js:19-24 | the unread count never exceeds the total |
| NotificationController.ListingIsWindow | backend/src/controllers/notificationController.js:7-34 | 500 exactly for a negative offset; otherwise the window of the inbox with total, unread count and page count |
| NotificationController.MarkAsRead | backend/src/controllers/notificationController.js:68-108 | the handler's new store and answer are those of `MarkOne` |
| NotificationController.MarkOneEffect | backend/src/controllers/notificationController.js:73-100 | 404 for a missing notification and 403 for anyone but its recipient, neither writing; otherwise exactly that notification becomes read, and the recipient's unread count falls by one exactly when it was unread |
| NotificationController.MarkOneIdempotent | backend/src/controllers/notificationController.js:90-94 | marking a notification read twice is marking it once |
| NotificationController.MarkAllAsRead | backend/src/controllers/notificationController.js:111-131 | the handler's new store and answer are those of `MarkAll` |
| NotificationController.MarkAllEffect | backend/src/controllers/notificationController.js:115-118 | every notification of the caller is read afterwards, their unread count is 0, and nobody else's notification changes |
| NotificationController.MarkAllIdempotent | backend/src/controllers/notificationController.js:115-118 | marking all read twice is marking all read once |
| NotificationController.DeleteNotification | backend/src/controllers/notificationController.js:134-169 | the handler's new store and answer are those of `DeleteOne` |
| NotificationController.DeleteOneEffect | backend/src/controllers/notificationController.js:139-156 | 404 for a missing notification and 403 for anyone but its recipient, neither writing; otherwise exactly that notification is removed |
| NotificationController.ClearAllNotifications | backend/src/controllers/notificationController.js:172-189 | the handler's new store and answer are those of `ClearAll` |
| NotificationController.ClearAllEffect | backend/src/controllers/notificationController.js:176 | the caller's inbox is empty afterwards and every other user's notifications stay |
| NotificationController.AnswerRaisesUnread | backend/src/controllers/replyController.js:54-67 | a reply to another user's question raises that user's unread count by one, and marking all read then brings it to 0 |
| RegisterController.DuplicateMessage | backend/src/controllers/registerController.js:36-39 | the duplicate-key message is the field name with its first letter upper-cased, followed by " already exists" |
| RegisterController.RegisterUser | backend/src/controllers/registerController.js:4-44 | the handler's new store and answer are those of `Register` |
| RegisterController.RegisterRejections | backend/src/controllers/registerController.js:7-42 | 400 for a missing field, then 409 for a registered email, 409 for a taken username, 409 with the field's message for a duplicate key, 500 for any other error, none writing; success exactly when none applies |
| RegisterController.RegisterStoresUser | backend/src/controllers/registerController.js:20-31 | a registration appends one account under a fresh id with the role "user", answers 201 with it without the password, and changes nothing else |
| RegisterController.RegisterKeepsUnique | backend/src/controllers/registerController.js:11-21 | registration keeps emails unique and usernames unique |
| RegisterController.RegisterTwiceRefused | backend/src/controllers/registerController.js:11-17 | after a registration, another one with the same email or username is refused with 409 and writes nothing |
| Db.SetRoleEffect | backend/src/routes/hiddenSpotRoutes.js:122-127 | `findByIdAndUpdate(id, { role })` sets that user's role and keeps every other user's |
| Db.IncReplyCountEffect | backend/src/controllers/replyController.js:282-286 | `$inc` moves that question's `replyCount` by the given amount and changes no other question |
| Db.Bumped | backend/src/controllers/replyController.js:48-52 | the incremented question keeps its id, creation time and every field but `replyCount` |
| Db.Store.ReadAll | backend/src/controllers/notificationController.js:115-118 | `updateMany` marks read the caller's notifications and leaves the rest |
| Db.Store.SetUserRole | backend/src/controllers/contributionController.js:272 | the stored users become `SetRole` of the old ones |
| Db.Store.AddToReplyCount | backend/src/controllers/replyController.js:48-52 | the stored questions become `IncReplyCount` of the old ones |
| Paging.Window | backend/src/controllers/questionController.js:65-67 | `.skip().limit()` is a part of the list from the offset on, at most `limit` long, and the whole rest for a limit of 0 |
| Paging.PagesIsCeiling | backend/src/controllers/questionController.js:80 | for a positive limit, `Math.ceil(total / limit)` is the least count of pages covering `total`, and 0 exactly when there is nothing |
| Paging.EveryItemOnSomePage | backend/src/controllers/notificationController.js:9-32 | each item position lies within the window of one of pages 1..pages |
| Sorting.SortBySorted | backend/src/controllers/contributionController.js:170-172 | the sort's output is ordered by the key and is a permutation of its input |
| Sorting.SortByStable | backend/src/controllers/contributionController.js:170-172 | the sort is stable: for every key, the elements with that key come out in their input order |
| Sorting.SortBySortedInput | backend/src/controllers/contributionController.js:170-172 | an input already ordered by the key comes back unchanged |
| Text.Lower | backend/src/controllers/questionController.js:28-29 | `toLowerCase` keeps the length and lower-cases each letter |
| Text.LowerIdempotent | backend/src/controllers/questionController.js:61-63 | lower-casing a stored lower-case location again changes nothing |
| Text.EqualsIgnoreCaseFacts | backend/src/routes/hiddenSpotRoutes.js:46-50 | the case-insensitive anchored match is an equivalence that differs from equality only in letter case |
| Text.Capitalize | backend/src/controllers/registerController.js:38 | the first character upper-cased and the rest kept |
| Text.Utf16Length | frontend/src/pages/Register.jsx:24-25 | JavaScript's `length` lies between the number of characters and twice that |
| Text.Utf16LengthNoAstral | backend/src/models/questionModel.js:44 | text without characters outside the Basic Multilingual Plane is as long in code units as in characters |
| Text.Utf16LengthAstral | backend/src/models/replyModel.js:37 | one character outside the Basic Multilingual Plane makes the code-unit count exceed the character count |
| Zod.AllCharsIff | frontend/src/pages/Register.jsx:20 | an anchored class-star pattern matches exactly when every character is in the class |
| Zod.Failures | frontend/src/pages/Register.jsx:16-29 | a chain reports at most one message per check |
| Zod.FailuresEmptyIff | frontend/src/pages/Register.jsx:16-29 | a chain reports nothing exactly when every check passes |
| Zod.FailuresFirst | frontend/src/pages/Register.jsx:16-29 | the first message reported is the one of the first failing check |
| Zod.Shown | frontend/src/pages/Register.jsx:14-35 | a field shows nothing exactly when no issue is on its path |
| Zod.ShownAppend | frontend/src/pages/Register.jsx:14-35 | a field shows the first issue on it, from the schema's field order |
| RegisterForm.UsernameRule | frontend/src/pages/Register.jsx:16-20 | a username passes exactly when it is 4 to 24 characters, starts with a letter and goes on with letters, digits, '-' or '_'; such a name is ASCII, so its UTF-16 length is its character count |
| RegisterForm.PasswordRule | frontend/src/pages/Register.jsx:22-29 | a password passes exactly when it is 8 to 24 UTF-16 code units with an upper-case letter, a lower-case letter, a digit and one of `@$!%*?&` |
| RegisterForm.AstralPasswordLongEnough | frontend/src/pages/Register.jsx:22-29 | six characters, two of them outside the Basic Multilingual Plane, are 8 code units and pass the password chain |
| RegisterForm.SubmitsIff | frontend/src/pages/Register.jsx:14-35 | the form submits exactly when neither the username chain nor the password chain reports a message, the email passes, and the confirmation equals the password |
| RegisterForm.ShownMessages | frontend/src/pages/Register.jsx:14-35 | the username and password fields show the message of their first failing check, and the confirmation shows "Passwords do not match" exactly when it differs from the password |
| RegisterForm.PayloadDropsConfirmation | frontend/src/pages/Register.jsx:55-61 | the request sends the username, email and password and not the confirmation |
| RegisterForm.SubmittedHasAllFields | frontend/src/pages/Register.jsx:55-61 | a submitted form never meets the backend's 400 "All fields are required" check |
| SignInForm.SubmitsIff | frontend/src/pages/SignIn.jsx:17-27 | the sign-in form submits exactly when the email passes and the password is 8 to 24 UTF-16 code units with an upper-case letter, a lower-case letter, a digit and one of `@$!%*?&` |
| SignInForm.PasswordChainsAgree | frontend/src/pages/SignIn.jsx:19-26 | the sign-in password chain reports the same messages as the register chain for every password |
| SignInForm.RegisteredCredentialsSignIn | frontend/src/pages/SignIn.jsx:17-27 | credentials the register form accepted also pass the sign-in form |

## Left out

- HTTP, JSON rendering, Express routing and the JWT middleware are not modelled. The caller is a value: their id, username and the role claim in their token.
- JWT signing and expiry are left out. A minted token is reduced to the user id and role it carries.
- Password hashing is left out. `userModel.js` is not part of this model; a user is reduced to username, email and role.
- The `500` answers of the `catch` blocks for I/O failures (network, database down) are left out. The 500s the code raises itself are modelled: a schema failure, a negative `skip`, a `TypeError` (a `null` user after promotion, a `findById` missing from an inherited `modelMap` key).
- Concurrency is left out. Requests are applied one at a time. The only race modelled is the duplicate-key answer to a registration, given as a parameter.
- The `updatedAt` timestamps are left out. So are `__v`, `.select` and `.lean` projections, and `populate` beyond the fields the handlers read.
- The TTL index that deletes notifications once they expire is left out. Only the stored `expiresAt` is modelled.
- Mongoose's `trim` is left out, as is strict mode stripping undeclared paths on writes. Stored documents keep the fields the handlers write. A famous spot is stored as strict mode leaves it: only the paths its schema declares, so it has no `user`, `state` or `city`.
- A malformed ObjectId is left out: `Docs.Id` is a `nat`, so every id is well-formed. In the source, `findById`, `findByIdAndUpdate` and `findOne` on a malformed `:id`, `questionId`, `replyId` or `notificationId`, or on a malformed body `questionId` or `parentReplyId`, throw a `CastError`, which the handler's `catch` answers with 500. For example, `GET /questions/abc` answers 500, and `QuestionController.Detail` has no such input.
- Queries by a path a schema does not declare are modelled under `strictQuery: false`, the default from Mongoose 7 on: such a filter matches no document. This affects `FamousSpot.find({ state, city })`, `FamousSpot.find({ user })` and `countDocuments({ user })`. The members that depend on it are `FamousSpotModel.NeverOwned`, `ContributionController.DowngradeIffNoItems`, `ContributionController.OwnContributionRoleRule`, `ContributionController.CreatedItemRoleRule`, `ContributionController.ListingHasNothingElse` and `AllImagesRoute.OnlyFourCollectionsContribute`. Under Mongoose 6's default, `strictQuery: true`, those filters would be dropped and would match every famous spot.
- The `user` field of each entry of the contributions listing is left out. It is the contribution's `userId`, or `{ _id: userId }` for a created item, and so always names the caller.
- Mongo's order for documents with equal `createdAt` is modelled as insertion order.
- The `RegExp` built from a submitted name is treated as a literal, case-insensitive, anchored match. Regular-expression metacharacters in names are left out. Case folding is ASCII only.
- `parseFloat` and the Photon answer are parameters. NaN and floating-point rounding are left out.
- `page` and `limit` are integers or absent. Non-numeric query strings and fractional values are left out.
- The wording of the store's error for a negative `skip` is left out. So is the wording of `ValidationError` messages: both are modelled as 500 with a fixed message.
- The success-message texts of the answers are left out. Statuses, bodies and error messages are modelled.
- The GET list and detail aggregation routes of the four place routers are not part of the submission core and are left out.
- The zod email check is an abstract predicate. zod 3's refine-on-dirty-object behaviour is assumed.
- The reply forest is returned as the roots plus a map from each reply's id to its children. The nested JSON rendering of that tree is left out.
