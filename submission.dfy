/**
  What the four place-submission routes share: the success body, and the promotion step
  that runs after the write.

  When the caller's role claim is `"user"` and their recounted item total is exactly 1,
  the stored role becomes `"contributor"` and a token is minted. The routes differ in
  which total they pass (six collections, or five for the hidden spot) and in where the
  token's role comes from (the literal `"contributor"`, or the updated user's stored role).
 */
module Submission {
  import opened Wrappers
  import opened Docs
  import opened Http
  import opened Db
  import CM = ContributionModel

  /** `{ place, contribution, isNewPlace, newRole, accessToken }`; `None` is `null`. */
  datatype Body<P> = Body(place: Doc<P>, contribution: Option<Doc<CM.Contribution>>, isNewPlace: bool,
                          newRole: Option<string>, accessToken: Option<Token>)

  /** The `TypeError` raised when `findByIdAndUpdate` finds no user and the route reads
      `updatedUser._id`. */
  const NULL_USER: string := "Cannot read properties of null (reading '_id')"

  /** The promotion step's effect: the new state, whether it threw, and the two response
      fields it sets. */
  datatype Promotion = Promotion(st: State, crashed: bool, newRole: Option<string>, token: Option<Token>)

  /** The promotion step, given the recounted total; `fromStored` says whether the token's
      role is read back from the updated user. */
  function Promote(st: State, caller: Caller, total: nat, fromStored: bool): (p: Promotion)
    requires WellFormedState(st)
    ensures WellFormedState(p.st) && p.st == st.(users := p.st.users)
  {
    if caller.role == ROLE_USER && total == 1 then
      var st' := SetRole(st, caller.id, ROLE_CONTRIBUTOR);
      match FindUser(st', caller.id)
      case None => Promotion(st', true, None, None)
      case Some(u) =>
        Promotion(st', false, Some(ROLE_CONTRIBUTOR), Some(Token(u.id, if fromStored then u.body.role else ROLE_CONTRIBUTOR)))
    else Promotion(st, false, None, None)
  }

  /** The response: the thrown error as a 500 (the write before it stays), else 201 for a
      new place and 200 for a contribution. */
  function Respond<P>(p: Promotion, place: Doc<P>, contribution: Option<Doc<CM.Contribution>>,
                      isNewPlace: bool): Outcome<Body<P>> {
    if p.crashed then Outcome(p.st, Err(500, NULL_USER))
    else Outcome(p.st, Ok(if isNewPlace then 201 else 200, Body(place, contribution, isNewPlace, p.newRole, p.token)))
  }

  /** Promotion happens exactly when the claim is `"user"`, the total is 1 and the user
      exists; it then stores `"contributor"` and mints a token for the caller with that
      role, whichever way the token's role is read. It throws exactly when the user is
      missing. Only the caller's stored role can change, and no item count changes. */
  lemma PromoteFacts(st: State, caller: Caller, total: nat, fromStored: bool)
    requires WellFormedState(st)
    ensures var p := Promote(st, caller, total, fromStored);
      && (p.newRole.Some? <==> caller.role == ROLE_USER && total == 1 && FindUser(st, caller.id).Some?)
      && (p.crashed <==> caller.role == ROLE_USER && total == 1 && FindUser(st, caller.id).None?)
      && (p.token.Some? <==> p.newRole.Some?)
      && (p.newRole.Some? ==> p.newRole == Some(ROLE_CONTRIBUTOR) && p.token == Some(Token(caller.id, ROLE_CONTRIBUTOR))
                              && RoleOf(p.st, caller.id) == Some(ROLE_CONTRIBUTOR))
      && (p.newRole.None? ==> RoleOf(p.st, caller.id) == RoleOf(st, caller.id))
      && (forall v :: v != caller.id ==> RoleOf(p.st, v) == RoleOf(st, v))
      && (forall u :: TotalItems(p.st, u) == TotalItems(st, u) && PlaceItems(p.st, u) == PlaceItems(st, u))
  {
    if caller.role == ROLE_USER && total == 1 {
      var st' := SetRole(st, caller.id, ROLE_CONTRIBUTOR);
      SetRoleEffect(st, caller.id, ROLE_CONTRIBUTOR, caller.id);
      forall v | v != caller.id ensures RoleOf(st', v) == RoleOf(st, v) {
        SetRoleEffect(st, caller.id, ROLE_CONTRIBUTOR, v);
      }
    }
  }
}
