/** `button_callback`: the payload of a pressed inline button is matched in a
    fixed order — the subscription re-check, `copy_<id>`, `feedback_<kind>`,
    then the admin gate, then the three buttons of the add-video dialogue. */
module Callbacks {
  import opened Model
  import opened Text
  import opened Access
  import opened Links
  import opened Catalog
  import opened Submission

  const CheckSubData: string := "check_sub"
  const CopyPrefix: string := "copy_"
  const FeedbackPrefix: string := "feedback_"
  const FinishData: string := "finish_video"
  const ContinueData: string := "continue_files"
  const CancelData: string := "cancel_video"

  /** Which branch of `button_callback` a payload takes. */
  datatype Route =
    | CheckSub
    | CopyLink(videoId: VideoId)
    | Feedback(kind: string)
    | AdminOnly
    | FinishRequest
    | ContinueRequest
    | CancelRequest
    | Unhandled

  /** The routes that may touch the dialogue's state. */
  predicate IsDialogueRoute(r: Route) {
    r.FinishRequest? || r.ContinueRequest? || r.CancelRequest?
  }

  /** The three payloads handled before anyone is asked to be an admin. */
  predicate PreGate(data: string) {
    data == CheckSubData || StartsWith(data, CopyPrefix) || StartsWith(data, FeedbackPrefix)
  }

  /** The branch a payload from `user` takes. The `copy_` and `feedback_`
      arguments are what `data.replace(prefix, "")` leaves, which cuts out
      every occurrence of the prefix, not just the leading one. */
  function RouteOf(data: string, user: UserId, admins: seq<UserId>): (r: Route)
    ensures data == CheckSubData <==> r.CheckSub?
    ensures r.CopyLink? <==> data != CheckSubData && StartsWith(data, CopyPrefix)
    ensures r.Feedback? <==>
              data != CheckSubData && !StartsWith(data, CopyPrefix) && StartsWith(data, FeedbackPrefix)
    ensures r.AdminOnly? <==> !PreGate(data) && !IsAdmin(user, admins)
    ensures IsDialogueRoute(r) ==> IsAdmin(user, admins)
    ensures r.FinishRequest? <==> IsAdmin(user, admins) && data == FinishData
    ensures r.ContinueRequest? <==> IsAdmin(user, admins) && data == ContinueData
    ensures r.CancelRequest? <==> IsAdmin(user, admins) && data == CancelData
  {
    DialoguePayloadsArePostGate();
    if data == CheckSubData then CheckSub
    else if StartsWith(data, CopyPrefix) then CopyLink(RemoveAll(data, CopyPrefix))
    else if StartsWith(data, FeedbackPrefix) then Feedback(RemoveAll(data, FeedbackPrefix))
    else if !IsAdmin(user, admins) then AdminOnly
    else if data == FinishData then FinishRequest
    else if data == ContinueData then ContinueRequest
    else if data == CancelData then CancelRequest
    else Unhandled
  }

  /** None of the dialogue's own payloads is caught before the admin gate. */
  lemma DialoguePayloadsArePostGate()
    ensures !PreGate(FinishData) && !PreGate(ContinueData) && !PreGate(CancelData)
  {
    assert FinishData[0] != CopyPrefix[0] && FinishData[1] != FeedbackPrefix[1];
    assert ContinueData[2] != CopyPrefix[2] && ContinueData[0] != FeedbackPrefix[0];
    assert CancelData[1] != CopyPrefix[1] && CancelData[0] != FeedbackPrefix[0];
  }

  /** The pre-gate payloads are routed the same for every sender. */
  lemma PreGateIgnoresSender(data: string, u1: UserId, u2: UserId, admins: seq<UserId>)
    requires PreGate(data)
    ensures RouteOf(data, u1, admins) == RouteOf(data, u2, admins)
    ensures !IsDialogueRoute(RouteOf(data, u1, admins))
  {
  }

  /** What the pressing user is shown. */
  datatype CallbackReply =
    | Verified
    | NotJoinedAlert
    | LinkAlert(link: string)
    | FeedbackAlert(kind: string)
    | AdminOnlyAlert
    | FinishAnswer(finish: FinishReply)
    | ContinueAnswer
    | CancelAnswer
    | NoAnswer

  /** One button press. The oracle outcome is what a subscription query for
      `user` would return; the id and timestamp are used only by Finish. */
  function ButtonCallback(
    user: UserId, data: string, admins: seq<UserId>, outcome: OracleOutcome,
    bot: string, newId: VideoId, createdAt: string, st: State): (r: (State, CallbackReply))
    ensures var route := RouteOf(data, user, admins);
            && (!IsDialogueRoute(route) ==> r.0 == st)
            && (!route.FinishRequest? ==> r.0.registry == st.registry)
            && (route.CheckSub? ==> (r.1 == Verified <==> CheckSubscription(user, admins, outcome)))
            && (route.CopyLink? ==> r.1 == LinkAlert(DeepLink(bot, route.videoId)))
            && (route.AdminOnly? ==> r.1 == AdminOnlyAlert)
    ensures RouteOf(data, user, admins).CancelRequest? ==>
              && user !in r.0.sessions
              && (forall u :: u != user ==> SameAt(r.0.sessions, st.sessions, u))
    ensures RouteOf(data, user, admins).ContinueRequest? ==>
              && (user in r.0.sessions <==> user in st.sessions)
              && (user in r.0.sessions ==>
                    r.0.sessions[user].step == FilesStep && r.0.sessions[user].files == st.sessions[user].files)
              && (forall u :: u != user ==> SameAt(r.0.sessions, st.sessions, u))
    ensures RouteOf(data, user, admins).ContinueRequest? ==>
              r == (State(ContinueFiles(user, st.sessions), st.registry), ContinueAnswer)
    ensures RouteOf(data, user, admins).FinishRequest? ==>
              var finished := FinishVideo(user, st, newId, createdAt);
              && r == (finished.0, FinishAnswer(finished.1))
              && (r.1 == FinishAnswer(NoFilesYet) <==> r.0 == st)
              && (r.1 == FinishAnswer(Committed(newId)) <==> r.0 != st)
  {
    match RouteOf(data, user, admins)
    case CheckSub =>
      (st, if CheckSubscription(user, admins, outcome) then Verified else NotJoinedAlert)
    case CopyLink(id) => (st, LinkAlert(DeepLink(bot, id)))
    case Feedback(kind) => (st, FeedbackAlert(kind))
    case AdminOnly => (st, AdminOnlyAlert)
    case FinishRequest =>
      var (st', reply) := FinishVideo(user, st, newId, createdAt);
      (st', FinishAnswer(reply))
    case ContinueRequest => (State(ContinueFiles(user, st.sessions), st.registry), ContinueAnswer)
    case CancelRequest => (State(CancelVideo(user, st.sessions), st.registry), CancelAnswer)
    case Unhandled => (st, NoAnswer)
  }

  /** A non-admin pressing Finish, Add More or Cancel changes nothing. */
  lemma NonAdminDialogueButtonsInert(
    user: UserId, data: string, admins: seq<UserId>, outcome: OracleOutcome,
    bot: string, newId: VideoId, createdAt: string, st: State)
    requires !IsAdmin(user, admins)
    requires data == FinishData || data == ContinueData || data == CancelData
    ensures ButtonCallback(user, data, admins, outcome, bot, newId, createdAt, st)
            == (st, AdminOnlyAlert)
  {
    DialoguePayloadsArePostGate();
  }

  /** Every button press keeps the dialogue's invariants. */
  lemma ButtonCallbackKeepsInvariant(
    user: UserId, data: string, admins: seq<UserId>, outcome: OracleOutcome,
    bot: string, newId: VideoId, createdAt: string, st: State)
    requires Invariant(st, admins)
    ensures Invariant(ButtonCallback(user, data, admins, outcome, bot, newId, createdAt, st).0, admins)
  {
    match RouteOf(data, user, admins)
    case FinishRequest => FinishVideoKeepsInvariant(user, admins, st, newId, createdAt);
    case ContinueRequest => ContinueFilesKeepsInvariant(user, admins, st);
    case CancelRequest => CancelVideoKeepsInvariant(user, admins, st);
    case _ =>
  }

  /** The ids Finish hands out are decimal timestamps. */
  predicate IsDecimal(s: string) {
    forall i :: 0 <= i < |s| ==> '0' <= s[i] <= '9'
  }

  /** A decimal string never contains `copy_`. */
  lemma {:induction false} DecimalHasNoCopyPrefix(s: string)
    requires IsDecimal(s)
    ensures !Contains(s, CopyPrefix)
    decreases |s|
  {
    if |s| > 0 {
      assert s[0] != CopyPrefix[0];
      DecimalHasNoCopyPrefix(s[1..]);
    }
  }

  /** The "Copy Link" button attached to a finished upload (`copy_<id>`)
      answers with the deep link that leads back to exactly that id. */
  lemma CopyButtonRoundTrip(
    id: VideoId, user: UserId, admins: seq<UserId>, outcome: OracleOutcome,
    bot: string, newId: VideoId, createdAt: string, st: State)
    requires IsDecimal(id)
    ensures var r := ButtonCallback(user, CopyPrefix + id, admins, outcome, bot, newId, createdAt, st);
            && r.0 == st
            && r.1.LinkAlert?
            && StartArgument(bot, r.1.link) == Some(id)
  {
    DecimalHasNoCopyPrefix(id);
    PrefixRemovalRoundTrip(CopyPrefix, id);
    assert StartsWith(CopyPrefix + id, CopyPrefix) by {
      assert (CopyPrefix + id)[..|CopyPrefix|] == CopyPrefix;
    }
    assert CopyPrefix + id != CheckSubData by {
      assert (CopyPrefix + id)[1] == 'o' != CheckSubData[1];
    }
    DeepLinkRoundTrip(bot, id);
  }
}
