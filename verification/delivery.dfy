/** `send_video_to_user`: re-check the subscription, resolve the id, refuse an
    empty record, show the poster once if there is one, then send every
    stored file in order, counting the sends that did not raise. Each Telegram
    send is an abstract outcome: `posterOk` for the poster, `sendOk(i)` for the
    send of the i-th file. */
module Delivery {
  import opened Model
  import opened Access
  import opened Catalog

  /** The reply method each known file kind is sent with. */
  datatype Primitive = ReplyVideo | ReplyDocument | ReplyAudio | ReplyPhoto

  /** What happened to one stored file in the loop: a send was made (and did
      or did not raise), or the file's kind matched no branch and nothing was
      sent. */
  datatype Attempt = Called(primitive: Primitive, fileId: FileId, ok: bool) | Skipped

  function PrimitiveFor(kind: FileKind): Option<Primitive> {
    match kind
    case Video => Some(ReplyVideo)
    case Document => Some(ReplyDocument)
    case Audio => Some(ReplyAudio)
    case Photo => Some(ReplyPhoto)
    case Unrecognised(_) => None
  }

  /** One iteration of the loop body for file `f` whose send, if made, has
      outcome `ok`. */
  function AttemptFor(f: FileRef, ok: bool): (a: Attempt)
    ensures a.Skipped? <==> f.kind.Unrecognised?
    ensures a.Called? ==> PrimitiveFor(f.kind) == Some(a.primitive) && a.fileId == f.fileId && a.ok == ok
  {
    match PrimitiveFor(f.kind)
    case Some(p) => Called(p, f.fileId, ok)
    case None => Skipped
  }

  /** `sent_count += 1` is reached exactly when no send raised: a successful
      send, or a file no branch matched. */
  predicate Counted(a: Attempt) {
    a.Skipped? || a.ok
  }

  /** The loop's per-file history, one entry per stored file, in order. */
  function Trace(files: seq<FileRef>, sendOk: nat -> bool): (t: seq<Attempt>)
    ensures |t| == |files|
    ensures forall i :: 0 <= i < |files| ==> t[i] == AttemptFor(files[i], sendOk(i))
  {
    seq(|files|, i requires 0 <= i < |files| => AttemptFor(files[i], sendOk(i)))
  }

  /** The number of attempts that reached the increment. */
  function CountSent(attempts: seq<Attempt>): nat
    decreases |attempts|
  {
    if attempts == [] then 0
    else CountSent(attempts[..|attempts| - 1]) + (if Counted(attempts[|attempts| - 1]) then 1 else 0)
  }

  /** The number of sends that raised. */
  function CountFailed(attempts: seq<Attempt>): nat
    decreases |attempts|
  {
    if attempts == [] then 0
    else CountFailed(attempts[..|attempts| - 1]) + (if Counted(attempts[|attempts| - 1]) then 0 else 1)
  }

  /** Every file is either counted as sent or counted as failed, never both
      and never neither; so the count of sent files never exceeds the files. */
  lemma {:induction false} SentPlusFailed(attempts: seq<Attempt>)
    ensures CountSent(attempts) + CountFailed(attempts) == |attempts|
    ensures CountSent(attempts) <= |attempts|
    decreases |attempts|
  {
    if attempts != [] {
      SentPlusFailed(attempts[..|attempts| - 1]);
    }
  }

  /** Everything is reported sent exactly when no send raised. */
  lemma {:induction false} AllSentIffNoFailure(attempts: seq<Attempt>)
    ensures CountSent(attempts) == |attempts| <==> forall i :: 0 <= i < |attempts| ==> Counted(attempts[i])
    decreases |attempts|
  {
    SentPlusFailed(attempts);
    if attempts != [] {
      var init := attempts[..|attempts| - 1];
      AllSentIffNoFailure(init);
      SentPlusFailed(init);
      if CountSent(attempts) == |attempts| {
        forall i | 0 <= i < |attempts| ensures Counted(attempts[i]) {
          if i < |attempts| - 1 {
            assert attempts[i] == init[i];
          }
        }
      } else {
        if !Counted(attempts[|attempts| - 1]) {
        } else {
          var j :| 0 <= j < |init| && !Counted(init[j]);
          assert attempts[j] == init[j];
        }
      }
    }
  }

  /** The file loop as the bot runs it: one pass over the files in stored
      order, a send per recognised file, a failing send logged and skipped.
      It produces exactly the functional `Trace` and its count. */
  method DeliverFiles(files: seq<FileRef>, sendOk: nat -> bool) returns (attempts: seq<Attempt>, sent: nat)
    ensures attempts == Trace(files, sendOk)
    ensures sent == CountSent(attempts)
    ensures sent <= |files|
  {
    attempts := [];
    sent := 0;
    var i := 0;
    while i < |files|
      invariant 0 <= i <= |files|
      invariant |attempts| == i
      invariant forall j :: 0 <= j < i ==> attempts[j] == AttemptFor(files[j], sendOk(j))
      invariant sent == CountSent(attempts)
    {
      var a := AttemptFor(files[i], sendOk(i));
      assert (attempts + [a])[..i] == attempts;
      attempts := attempts + [a];
      if Counted(a) {
        sent := sent + 1;
      }
      i := i + 1;
    }
    SentPlusFailed(attempts);
  }

  /** How one call of `send_video_to_user` ended. */
  datatype DeliveryReport =
    | NotSubscribed
    | NotFound
    | NoFiles
    | Delivered(posterShown: bool, attempts: seq<Attempt>, sent: nat)

  /** `send_video_to_user`, its guards in their order: the subscription gate
      for non-admins, the registry lookup, the empty-file check. */
  function Deliver(
    user: UserId, admins: seq<UserId>, outcome: OracleOutcome, reg: ValidRegistry,
    videoId: VideoId, posterOk: bool, sendOk: nat -> bool): (r: DeliveryReport)
    ensures r.NotSubscribed? <==> !IsAdmin(user, admins) && !CheckSubscription(user, admins, outcome)
    ensures r.NotFound? <==> CheckSubscription(user, admins, outcome) && videoId !in reg.records
    ensures r.NoFiles? <==>
              CheckSubscription(user, admins, outcome) && videoId in reg.records
              && reg.records[videoId].files == []
    ensures r.Delivered? ==>
              var files := reg.records[videoId].files;
              && |r.attempts| == |files| > 0
              && (forall i :: 0 <= i < |files| ==>
                    && (files[i].kind.Unrecognised? <==> r.attempts[i].Skipped?)
                    && (r.attempts[i].Called? ==>
                          && PrimitiveFor(files[i].kind) == Some(r.attempts[i].primitive)
                          && r.attempts[i].fileId == files[i].fileId && r.attempts[i].ok == sendOk(i)))
              && r.sent + CountFailed(r.attempts) == |files|
    ensures r.Delivered? ==>
              && r.attempts == Trace(reg.records[videoId].files, sendOk)
              && r.sent == CountSent(r.attempts)
              && (r.posterShown <==> Truthy(reg.records[videoId].poster) && posterOk)
  {
    if !IsAdmin(user, admins) && !CheckSubscription(user, admins, outcome) then NotSubscribed
    else match Lookup(reg, videoId)
      case None => NotFound
      case Some(rec) =>
        if rec.files == [] then NoFiles
        else
          var attempts := Trace(rec.files, sendOk);
          SentPlusFailed(attempts);
          Delivered(Truthy(rec.poster) && posterOk, attempts, CountSent(attempts))
  }

  /** A failed poster does not stop, shorten or reorder the file loop. */
  lemma PosterFailureDoesNotStopLoop(
    user: UserId, admins: seq<UserId>, outcome: OracleOutcome, reg: ValidRegistry,
    videoId: VideoId, sendOk: nat -> bool)
    ensures var a := Deliver(user, admins, outcome, reg, videoId, true, sendOk);
            var b := Deliver(user, admins, outcome, reg, videoId, false, sendOk);
            && a.Delivered? == b.Delivered?
            && (a.Delivered? ==> a.attempts == b.attempts && a.sent == b.sent)
  {
  }

  /** A failed file send does not stop the loop: the file after it is still
      attempted, with its own outcome. */
  lemma FailureDoesNotAbort(
    user: UserId, admins: seq<UserId>, outcome: OracleOutcome, reg: ValidRegistry,
    videoId: VideoId, posterOk: bool, sendOk: nat -> bool, i: nat)
    requires Deliver(user, admins, outcome, reg, videoId, posterOk, sendOk).Delivered?
    requires i + 1 < |reg.records[videoId].files|
    requires !sendOk(i)
    ensures var r := Deliver(user, admins, outcome, reg, videoId, posterOk, sendOk);
            r.attempts[i + 1] == AttemptFor(reg.records[videoId].files[i + 1], sendOk(i + 1))
  {
  }

  /** Three failures among five video sends: all five are attempted and two
      are reported delivered. */
  lemma ThreeOfFiveFail(user: UserId, admins: seq<UserId>, reg: ValidRegistry, videoId: VideoId)
    requires IsAdmin(user, admins)
    requires videoId in reg.records
    requires |reg.records[videoId].files| == 5
    requires forall i :: 0 <= i < 5 ==> reg.records[videoId].files[i].kind == Video
    ensures var sendOk := (i: nat) => i == 0 || i == 3;
            var r := Deliver(user, admins, OtherError, reg, videoId, false, sendOk);
            r.Delivered? && |r.attempts| == 5 && r.sent == 2 && CountFailed(r.attempts) == 3
  {
    var sendOk := (i: nat) => i == 0 || i == 3;
    var files := reg.records[videoId].files;
    var t := Trace(files, sendOk);
    assert Counted(t[0]) && !Counted(t[1]) && !Counted(t[2]) && Counted(t[3]) && !Counted(t[4]);
    assert t[..1][..0] == [];
    assert CountSent(t[..1]) == 1;
    assert t[..2][..1] == t[..1];
    assert CountSent(t[..2]) == 1;
    assert t[..3][..2] == t[..2];
    assert CountSent(t[..3]) == 1;
    assert t[..4][..3] == t[..3];
    assert CountSent(t[..4]) == 2;
    assert t[..4] == t[..|t| - 1];
    SentPlusFailed(t);
  }
}
