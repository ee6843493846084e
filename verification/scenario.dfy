/** A whole upload followed by a delivery, end to end. */
module Scenario {
  import opened Model
  import opened Text
  import opened Access
  import opened Submission
  import opened Delivery

  function TextMessage(t: string): Message {
    Message(Some(t), [], None, None, None)
  }

  function PhotoMessage(sizes: seq<FileId>): Message {
    Message(None, sizes, None, None, None)
  }

  function VideoMessage(v: FileId): Message {
    Message(None, [], Some(v), None, None)
  }

  /** An admin sends `/addvideo`, a title, a poster photo and one video, then
      presses Finish. The registry then holds exactly that record under the
      new id, and a subscribed user asking for the id gets the poster shown
      and that one video sent. */
  lemma UploadThenDeliver(
    admin: UserId, admins: seq<UserId>, st: State, title: string, poster: FileId, video: FileId,
    newId: VideoId, createdAt: string, reader: UserId, outcome: OracleOutcome, sendOk: nat -> bool)
    requires IsAdmin(admin, admins)
    requires title != "" && poster != ""
    requires CheckSubscription(reader, admins, outcome)
    ensures
      var s1 := AddVideo(admin, admins, st.sessions);
      var s2 := HandleInputs(admin, TextMessage(title), s1);
      var s3 := HandleInputs(admin, PhotoMessage([poster]), s2);
      var s4 := HandleInputs(admin, VideoMessage(video), s3);
      var (st5, reply) := FinishVideo(admin, State(s4, st.registry), newId, createdAt);
      && reply == Committed(newId)
      && admin !in st5.sessions
      && st5.registry.records[newId] == Record(Some(Strip(title)), Some(poster), [FileRef(Video, video)], createdAt, admin)
      && Deliver(reader, admins, outcome, st5.registry, newId, true, sendOk)
         == Delivered(true, [Called(ReplyVideo, video, sendOk(0))], if sendOk(0) then 1 else 0)
  {
    var s1 := AddVideo(admin, admins, st.sessions);
    var s2 := HandleInputs(admin, TextMessage(title), s1);
    var s3 := HandleInputs(admin, PhotoMessage([poster]), s2);
    var s4 := HandleInputs(admin, VideoMessage(video), s3);
    assert s4[admin] == Session(FilesStep, Some(Strip(title)), Some(poster), [FileRef(Video, video)]);
    var (st5, reply) := FinishVideo(admin, State(s4, st.registry), newId, createdAt);
    var files := st5.registry.records[newId].files;
    var t := Trace(files, sendOk);
    assert t == [Called(ReplyVideo, video, sendOk(0))];
    assert t[..0] == [];
  }
}
