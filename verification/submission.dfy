/** The admin's add-video dialogue: `/addvideo` opens a session, the next
    text message becomes the title, the next photo the poster, and every
    media message after that one more file, until the admin presses
    Finish, Add More or Cancel. Sessions live in `user_sessions`, keyed by the
    admin's user id. */
module Submission {
  import opened Model
  import opened Text
  import opened Catalog

  /** The value of `session["step"]`. */
  datatype Step = TitleStep | PosterStep | FilesStep

  /** One `user_sessions` entry. */
  datatype Session = Session(step: Step, title: Option<string>, poster: Option<FileId>, files: seq<FileRef>)

  type Sessions = map<UserId, Session>

  /** The bot's two stores: open sessions and the video registry. */
  datatype State = State(sessions: Sessions, registry: ValidRegistry)

  /** The parts of an incoming Telegram message the dialogue looks at. `photo`
      lists the file ids of the photo's sizes, smallest first, and is empty for
      a message without a photo. */
  datatype Message = Message(
    text: Option<string>,
    photo: seq<FileId>,
    video: Option<FileId>,
    document: Option<FileId>,
    audio: Option<FileId>)

  /** The session `/addvideo` starts from. */
  const NewSession: Session := Session(TitleStep, None, None, [])

  /** Both maps agree at `u`: present in both with the same session, or absent
      from both. */
  predicate SameAt(a: Sessions, b: Sessions, u: UserId) {
    (u in a <==> u in b) && (u in a ==> a[u] == b[u])
  }

  /** Position of a step in the dialogue's forward order. */
  function Rank(s: Step): nat {
    match s
    case TitleStep => 0
    case PosterStep => 1
    case FilesStep => 2
  }

  /** `add_video`: a non-admin changes nothing; an admin's session is
      replaced by a fresh one, whatever it held before. */
  function AddVideo(user: UserId, admins: seq<UserId>, sessions: Sessions): (r: Sessions)
    ensures !IsAdmin(user, admins) ==> r == sessions
    ensures IsAdmin(user, admins) ==>
              user in r && r[user].step == TitleStep && r[user].title.None?
              && r[user].poster.None? && r[user].files == []
    ensures forall u :: u != user ==> SameAt(r, sessions, u)
  {
    if !IsAdmin(user, admins) then sessions
    else sessions[user := NewSession]
  }

  /** `extract_file`: the first media kind present, in the order video,
      document, audio, photo; a photo contributes its largest (last) size. */
  function ExtractFile(m: Message): (r: Option<FileRef>)
    ensures r.None? <==> m.video.None? && m.document.None? && m.audio.None? && m.photo == []
    ensures m.video.Some? ==> r == Some(FileRef(Video, m.video.value))
    ensures r.Some? && r.value.kind == Video ==> m.video == Some(r.value.fileId)
    ensures r.Some? && r.value.kind == Document ==> m.video.None? && m.document == Some(r.value.fileId)
    ensures r.Some? && r.value.kind == Audio ==>
              m.video.None? && m.document.None? && m.audio == Some(r.value.fileId)
    ensures r.Some? && r.value.kind == Photo ==>
              m.video.None? && m.document.None? && m.audio.None? && r.value.fileId == m.photo[|m.photo| - 1]
    ensures r.Some? ==> !r.value.kind.Unrecognised?
  {
    if m.video.Some? then Some(FileRef(Video, m.video.value))
    else if m.document.Some? then Some(FileRef(Document, m.document.value))
    else if m.audio.Some? then Some(FileRef(Audio, m.audio.value))
    else if |m.photo| > 0 then Some(FileRef(Photo, m.photo[|m.photo| - 1]))
    else None
  }

  /** The message that carries just the file `f`, attached as its own kind
      (a photo as its only size). */
  function MediaMessage(f: FileRef): Message {
    match f.kind
    case Video => Message(None, [], Some(f.fileId), None, None)
    case Document => Message(None, [], None, Some(f.fileId), None)
    case Audio => Message(None, [], None, None, Some(f.fileId))
    case _ => Message(None, [f.fileId], None, None, None)
  }

  /** Every recognised file, sent on its own, is extracted back unchanged. */
  lemma ExtractFileRoundTrip(f: FileRef)
    requires !f.kind.Unrecognised?
    ensures ExtractFile(MediaMessage(f)) == Some(f)
  {
  }

  /** `handle_inputs`: the message advances the sender's session when it is
      what the current step waits for, and is dropped otherwise. */
  function HandleInputs(user: UserId, m: Message, sessions: Sessions): (r: Sessions)
    ensures forall u :: u != user ==> SameAt(r, sessions, u)
    ensures user in r <==> user in sessions
    ensures user !in sessions ==> r == sessions
    ensures user in sessions ==>
              var s, s' := sessions[user], r[user];
              && Rank(s.step) <= Rank(s'.step) <= Rank(s.step) + 1
              && s.files <= s'.files && |s'.files| <= |s.files| + 1
    ensures user in sessions && sessions[user].step == TitleStep ==>
              var s, s' := sessions[user], r[user];
              if Truthy(m.text)
              then s' == s.(title := Some(Strip(m.text.value)), step := PosterStep)
              else s' == s
    ensures user in sessions && sessions[user].step == PosterStep ==>
              var s, s' := sessions[user], r[user];
              if |m.photo| > 0
              then s' == s.(poster := Some(m.photo[|m.photo| - 1]), step := FilesStep)
              else s' == s
    ensures user in sessions && sessions[user].step == FilesStep ==>
              var s, s' := sessions[user], r[user];
              && s'.step == FilesStep && s'.title == s.title && s'.poster == s.poster
              && (ExtractFile(m).None? <==> s'.files == s.files)
              && (ExtractFile(m).Some? ==> s'.files == s.files + [ExtractFile(m).value])
  {
    if user !in sessions then sessions
    else
      var s := sessions[user];
      if s.step == TitleStep && Truthy(m.text) then
        sessions[user := s.(title := Some(Strip(m.text.value)), step := PosterStep)]
      else if s.step == PosterStep && |m.photo| > 0 then
        sessions[user := s.(poster := Some(m.photo[|m.photo| - 1]), step := FilesStep)]
      else if s.step == FilesStep then
        match ExtractFile(m)
        case Some(f) => sessions[user := s.(files := s.files + [f])]
        case None => sessions
      else sessions
  }

  /** The "Add More Files" button: an existing session is put in the files
      step, whatever step it was in; nothing else about it changes. */
  function ContinueFiles(user: UserId, sessions: Sessions): (r: Sessions)
    ensures forall u :: u != user ==> SameAt(r, sessions, u)
    ensures user in r <==> user in sessions
    ensures user in r ==> r[user] == sessions[user].(step := FilesStep)
  {
    if user in sessions then sessions[user := sessions[user].(step := FilesStep)]
    else sessions
  }

  /** The "Cancel" button: the sender's session is gone afterwards, if it
      existed at all; other sessions stay. */
  function CancelVideo(user: UserId, sessions: Sessions): (r: Sessions)
    ensures user !in r
    ensures forall u :: u != user ==> SameAt(r, sessions, u)
    ensures user !in sessions ==> r == sessions
  {
    if user in sessions then sessions - {user} else sessions
  }

  /** Cancelling twice is cancelling once. */
  lemma CancelIdempotent(user: UserId, sessions: Sessions)
    ensures CancelVideo(user, CancelVideo(user, sessions)) == CancelVideo(user, sessions)
  {
  }

  /** What the Finish button answered. */
  datatype FinishReply = NoFilesYet | Committed(id: VideoId)

  /** The record a session turns into when `user` finishes it. */
  function RecordOf(s: Session, createdAt: string, user: UserId): Record {
    Record(s.title, s.poster, s.files, createdAt, user)
  }

  /** `finish_video_creation`, with the new id and timestamp passed in. With
      no session or no files nothing changes. Otherwise the session becomes a
      record under `newId`, overwriting any record already there, and the
      session is dropped. */
  function FinishVideo(user: UserId, st: State, newId: VideoId, createdAt: string): (r: (State, FinishReply))
    ensures r.1.NoFilesYet? <==> user !in st.sessions || st.sessions[user].files == []
    ensures r.1.NoFilesYet? ==> r.0 == st
    ensures r.1.Committed? ==>
              var s := st.sessions[user];
              && r.1.id == newId
              && user !in r.0.sessions
              && (forall u :: u != user ==> SameAt(r.0.sessions, st.sessions, u))
              && newId in r.0.registry.records
              && r.0.registry.records[newId] == Record(s.title, s.poster, s.files, createdAt, user)
              && r.0.registry.records[newId].files != []
              && r.0.registry == Put(st.registry, newId, RecordOf(s, createdAt, user))
              && (newId !in st.registry.records ==> r.0.registry.order == st.registry.order + [newId])
              && (newId in st.registry.records ==> r.0.registry.order == st.registry.order)
              && (forall k :: k != newId ==> (k in r.0.registry.records <==> k in st.registry.records))
              && (forall k :: k != newId && k in st.registry.records ==>
                    r.0.registry.records[k] == st.registry.records[k])
  {
    if user !in st.sessions || st.sessions[user].files == [] then (st, NoFilesYet)
    else
      var s := st.sessions[user];
      var reg := Put(st.registry, newId, RecordOf(s, createdAt, user));
      (State(st.sessions - {user}, reg), Committed(newId))
  }

  /** After a successful Finish a Cancel from the same admin finds nothing to
      cancel. */
  lemma CancelAfterFinishIsNoOp(user: UserId, st: State, newId: VideoId, createdAt: string)
    requires FinishVideo(user, st, newId, createdAt).1.Committed?
    ensures var st' := FinishVideo(user, st, newId, createdAt).0;
            CancelVideo(user, st'.sessions) == st'.sessions
  {
  }

  // ---------------- invariants of the dialogue ----------------

  /** Only admins ever hold a session. */
  predicate AdminsOnly(sessions: Sessions, admins: seq<UserId>) {
    forall u :: u in sessions ==> IsAdmin(u, admins)
  }

  /** What each step implies about the fields collected so far: nothing is
      collected while waiting for the title, and a session waiting for its
      poster has a title and no files yet. */
  predicate Shaped(s: Session) {
    && (s.step == TitleStep ==> s.title.None? && s.poster.None? && s.files == [])
    && (s.step == PosterStep ==> s.title.Some? && s.poster.None? && s.files == [])
  }

  predicate AllShaped(sessions: Sessions) {
    forall u :: u in sessions ==> Shaped(sessions[u])
  }

  /** The invariants every operation of the dialogue keeps. */
  predicate Invariant(st: State, admins: seq<UserId>) {
    AdminsOnly(st.sessions, admins) && AllShaped(st.sessions) && RecordsNonEmpty(st.registry)
  }

  lemma AddVideoKeepsInvariant(user: UserId, admins: seq<UserId>, st: State)
    requires Invariant(st, admins)
    ensures Invariant(State(AddVideo(user, admins, st.sessions), st.registry), admins)
  {
  }

  lemma HandleInputsKeepsInvariant(user: UserId, m: Message, admins: seq<UserId>, st: State)
    requires Invariant(st, admins)
    ensures Invariant(State(HandleInputs(user, m, st.sessions), st.registry), admins)
  {
    var r := HandleInputs(user, m, st.sessions);
    forall u | u in r
      ensures Shaped(r[u]) && IsAdmin(u, admins)
    {
      if u != user {
        assert SameAt(r, st.sessions, u);
      }
    }
  }

  lemma ContinueFilesKeepsInvariant(user: UserId, admins: seq<UserId>, st: State)
    requires Invariant(st, admins)
    ensures Invariant(State(ContinueFiles(user, st.sessions), st.registry), admins)
  {
    var r := ContinueFiles(user, st.sessions);
    forall u | u in r
      ensures Shaped(r[u]) && IsAdmin(u, admins)
    {
      if u != user {
        assert SameAt(r, st.sessions, u);
      }
    }
  }

  lemma CancelVideoKeepsInvariant(user: UserId, admins: seq<UserId>, st: State)
    requires Invariant(st, admins)
    ensures Invariant(State(CancelVideo(user, st.sessions), st.registry), admins)
  {
    var r := CancelVideo(user, st.sessions);
    forall u | u in r
      ensures Shaped(r[u]) && IsAdmin(u, admins)
    {
      if u != user {
        assert SameAt(r, st.sessions, u);
      }
    }
  }

  /** Finish never commits an empty record, so the registry keeps having
      files behind every id. */
  lemma FinishVideoKeepsInvariant(user: UserId, admins: seq<UserId>, st: State, newId: VideoId, createdAt: string)
    requires Invariant(st, admins)
    ensures Invariant(FinishVideo(user, st, newId, createdAt).0, admins)
  {
    var r := FinishVideo(user, st, newId, createdAt);
    if r.1.Committed? {
      forall u | u in r.0.sessions
        ensures Shaped(r.0.sessions[u]) && IsAdmin(u, admins)
      {
        if u != user {
          assert SameAt(r.0.sessions, st.sessions, u);
        }
      }
      forall k | k in r.0.registry.records
        ensures r.0.registry.records[k].files != []
      {
        if k != newId {
          assert k in st.registry.records;
        }
      }
    }
  }

  /** Two media messages in the files step are both kept, in arrival order:
      neither overwrites the other. */
  lemma TwoFilesBothAppended(user: UserId, m1: Message, m2: Message, sessions: Sessions)
    requires user in sessions && sessions[user].step == FilesStep
    requires ExtractFile(m1).Some? && ExtractFile(m2).Some?
    ensures var r := HandleInputs(user, m2, HandleInputs(user, m1, sessions));
            && |r[user].files| == |sessions[user].files| + 2
            && r[user].files == sessions[user].files + [ExtractFile(m1).value, ExtractFile(m2).value]
  {
    var r1 := HandleInputs(user, m1, sessions);
    assert r1[user].step == FilesStep;
  }

  /** "Add More Files" is the one transition that can skip steps: pressed on a
      session still waiting for its title, it leaves a files-step session
      with neither title nor poster, which Finish will commit as it is. */
  lemma ContinueFilesSkipsTitle(user: UserId, sessions: Sessions)
    requires user in sessions && sessions[user] == NewSession
    ensures var s := ContinueFiles(user, sessions)[user];
            s.step == FilesStep && s.title.None? && s.poster.None?
  {
  }
}
