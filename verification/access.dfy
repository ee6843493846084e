/** The force-subscription gate (`check_subscription`): admins always pass;
    everyone else is judged by one channel-membership query. */
module Access {
  import opened Model
  import opened Text

  /** What the single `get_chat_member` call produced: a member status, a
      `BadRequest` carrying its message, or any other exception. */
  datatype OracleOutcome =
    | Status(status: string)
    | BadRequest(message: string)
    | OtherError

  /** The statuses that count as subscribed. */
  const SubscribedStatuses: set<string> := {"member", "administrator", "creator"}

  /** The fail-open rule for a `BadRequest`: its lower-cased message says the
      bot is not a member of the channel and does not say the user is missing. */
  predicate FailsOpen(message: string) {
    var low := Lower(message);
    Contains(low, "bot is not a member") && !Contains(low, "user not found")
  }

  /** The decision of `check_subscription`. The oracle outcome is consulted only
      for a non-admin; the three `BadRequest` message tests run in the order
      the code makes them. */
  function CheckSubscription(user: UserId, admins: seq<UserId>, outcome: OracleOutcome): (allowed: bool)
    ensures allowed <==>
              || IsAdmin(user, admins)
              || (outcome.Status? && outcome.status in SubscribedStatuses)
              || (outcome.BadRequest? && FailsOpen(outcome.message))
  {
    if IsAdmin(user, admins) then true
    else
      match outcome
      case Status(s) => s == "member" || s == "administrator" || s == "creator"
      case BadRequest(m) =>
        var low := Lower(m);
        if Contains(low, "user not found") then false
        else if Contains(low, "bot is not a member") then true
        else if Contains(low, "chat not found") then false
        else false
      case OtherError => false
  }

  /** An admin's decision does not depend on the oracle at all: the query is
      never needed, whatever it would have answered. */
  lemma AdminIgnoresOracle(user: UserId, admins: seq<UserId>, o1: OracleOutcome, o2: OracleOutcome)
    requires IsAdmin(user, admins)
    ensures CheckSubscription(user, admins, o1) == CheckSubscription(user, admins, o2) == true
  {
  }

  /** For a non-admin every failure of the query denies, except the fail-open
      `BadRequest`; "user not found" wins over "bot is not a member", and
      "chat not found" denies. */
  lemma NonAdminErrorsDeny(user: UserId, admins: seq<UserId>, message: string)
    requires !IsAdmin(user, admins)
    ensures !CheckSubscription(user, admins, OtherError)
    ensures var low := Lower(message);
            Contains(low, "user not found") ==> !CheckSubscription(user, admins, BadRequest(message))
    ensures var low := Lower(message);
            (Contains(low, "chat not found") && !Contains(low, "bot is not a member"))
            ==> !CheckSubscription(user, admins, BadRequest(message))
    ensures var low := Lower(message);
            (Contains(low, "bot is not a member") && !Contains(low, "user not found"))
            ==> CheckSubscription(user, admins, BadRequest(message))
  {
  }
}
