# Bitlu Mawa bot — a Dafny model of its logic

The bot (`bot.py`) hides a catalogue of videos behind a channel subscription.
Admins add videos through a three-step chat dialogue: title, poster, files.
Users open a deep link `https://t.me/<bot>?start=<id>` and get the poster and
every file sent back to them.

This project models the four pieces of logic inside the Telegram plumbing. The
Telegram objects are replaced by plain datatypes and pure functions:

- **Access gate** (`Access`): `check_subscription`. Admins always pass. For
  everyone else, one membership query decides. Its answer is modelled as an
  `OracleOutcome`: a status, a `BadRequest` with its message, or any other
  error.
- **Add-video dialogue** (`Submission`): `add_video`, `handle_inputs`,
  `extract_file`, the Add More / Cancel buttons and `finish_video_creation`.
  These are transitions over `map<UserId, Session>` and the registry.
- **Button routing** (`Callbacks`): `button_callback`. Payloads are matched in
  this order: `check_sub`, `copy_…`, `feedback_…`, the admin gate, then the
  three dialogue buttons.
- **Delivery** (`Delivery`): `send_video_to_user`. It runs three guards in
  order, sends the poster on a best-effort basis, then sends each file. Each
  send is an abstract outcome: `posterOk` for the poster and `sendOk(i)` for
  the i-th file. `DeliverFiles` is the counted loop. `Trace` and `CountSent`
  are its functional description.
- **Registry** (`Catalog`): `videos_data` is a Python dict, so it keeps
  insertion order, and `/listvideos` shows its last ten entries. It is
  modelled as a map plus its key order. A key that is written again keeps its
  original position. The module also covers `/stats` and `/listvideos`.
- Helpers: `Text` models Python's `strip`, `lower`, `in`, `startswith` and
  `replace(p, "")`. `Links` models the `t.me` links.

Behaviours of the code worth knowing, all modelled as written:

- The gate returns a `bool`, not a three-way allowed/denied/indeterminate
  answer. The "bot is not a member" case simply returns `True`.
- Finish does not check for duplicate ids. A record already stored under the
  new id is overwritten (`Catalog.Put`).
- "Add More Files" sets the step to `files` from any step, not only from the
  files step. A stale button pressed on a session that is still waiting for
  its title creates a files-step session with no title and no poster
  (`Submission.ContinueFilesSkipsTitle`). Finish then commits that record
  without a title.
- A title is not required to be non-empty. A text made only of whitespace
  strips to `""`.
- Nothing in the code locks anything. Each transition is modelled as one
  atomic step.

## Model

| member | source | states |
|---|---|---|
| Access.CheckSubscription | bot.py:103-146 | An admin is allowed. Anyone is allowed exactly when one of three holds: they are an admin; the status is member, administrator or creator; or a `BadRequest` message, lower-cased, contains "bot is not a member" but not "user not found". Every other status, `BadRequest` or error denies. |
| Access.AdminIgnoresOracle | bot.py:105-107 | For an admin, every possible query outcome gives the same answer, "allowed", so the query is never needed. |
| Access.NonAdminErrorsDeny | bot.py:127-146 | For a non-admin: any non-`BadRequest` error denies. "user not found" denies even when the message also says "bot is not a member". "chat not found" denies. The fail-open message allows. |
| Text.Strip | bot.py:307 | The stripped title has no whitespace at either end (Python's `isspace` set). It sits inside the original text with only whitespace cut away around it. |
| Text.StripIdempotent | bot.py:307 | Stripping a stored title again changes nothing. |
| Text.Lower | bot.py:128 | The lower-cased message keeps its length and contains no capital ASCII letter. Each capital becomes the letter 32 code points above it. Every other character stays where it was. |
| Text.LowerIdempotent | bot.py:128 | Lower-casing an already lower-cased message changes nothing. |
| Text.RemoveAllAbsent | bot.py:411 | `s.replace(p, "")` returns `s` unchanged when `p` does not occur in `s`. |
| Text.RemoveAllLeading | bot.py:411 | A leading occurrence of the pattern is cut, and the scan resumes right after it. |
| Text.PrefixRemovalRoundTrip | bot.py:410-411 | `(p + s).replace(p, "")` gives back `s` whenever `s` does not contain `p`. |
| Links.DeepLink | bot.py:471-472 | A share link starts with `https://t.me/<bot>?start=` and is exactly that prefix followed by the argument. |
| Links.DeepLinkRoundTrip | bot.py:472 | Reading the `start` argument back from a deep link gives exactly the id that was put in. |
| Links.DeepLinkInjective | bot.py:472 | Two different ids never get the same deep link. |
| Links.RetryLink | bot.py:157-160 | The retry link carries the `/start` argument exactly when that argument is truthy. Otherwise it is the bare bot link with no argument. |
| Catalog.Lookup | bot.py:509-513 | A lookup finds a record exactly for the ids in the registry's key order, and returns the stored record. |
| Catalog.LookupAfterPut | bot.py:460-466 | After a commit, looking up the committed id gives the new record. Every other id gives what it gave before. |
| Catalog.Put | bot.py:460-466 | After a commit, the new id maps to the new record and every other id keeps its record. A new id is appended to the insertion order. An existing id is overwritten and keeps its position. The key order stays duplicate-free and equal to the map's keys. |
| Catalog.TotalFilesAfterPut | bot.py:604-605 | Committing under a new id raises the `/stats` file total by the record's file count. Overwriting an id replaces the old record's file count with the new one. |
| Catalog.ListVideos | bot.py:617-635 | Non-admins are refused. An empty registry is reported as empty. Otherwise the listing has between one and ten entries, min(10, n) of them, taken from the last keys in insertion order. Each entry carries its record's title and file count. |
| Catalog.StatsOf | bot.py:596-615 | Non-admins are refused. Admins get the length of the admin list and a video count equal to the number of ids in the insertion order that `/listvideos` draws from. The file total is the sum of every record's file-list length (`TotalFiles`, which `TotalFilesAfterPut` tracks across commits). When no stored record is empty, the file total is at least the video count. |
| Catalog.RecentAfterPut | bot.py:627-630 | Committing a new id slides the ten-entry window: the new record becomes the last entry, and the oldest entry is dropped only when the window was full. |
| Catalog.ListVideosAfterPut | bot.py:617-635 | After an admin commits a new id, `/listvideos` lists that record last. The entries before it are the previous listing, less its oldest entry if it already had ten. An empty registry becomes a one-entry listing. |
| Submission.AddVideo | bot.py:271-285 | A non-admin changes nothing. An admin's session, whatever it held before, becomes a fresh session: title step, no title, no poster, no files. Every other user's session is untouched. |
| Submission.ExtractFile | bot.py:363-375 | A file is found exactly when the message has a video, document, audio or photo. The priority is video, then document, then audio, then photo. A photo contributes its last (largest) size. The kind is never unrecognised. |
| Submission.ExtractFileRoundTrip | bot.py:363-375 | A message carrying a single recognised file, attached as its own kind, gives back exactly that file. |
| Submission.HandleInputs | bot.py:294-338 | Without a session nothing changes, and other users are never touched. Title step with non-empty text: the title becomes the stripped text and the step becomes poster. Poster step with a photo: the poster becomes the last size and the step becomes files. Any other message in those steps changes nothing. Files step: a media message appends exactly its extracted file and stays in files. Otherwise nothing changes. The step never moves back and advances at most one place. |
| Submission.ContinueFiles | bot.py:436-439 | An existing session is put in the files step whatever its prior step, and nothing else about it changes. Without a session nothing happens. Other users are untouched. |
| Submission.CancelVideo | bot.py:445-447 | Afterwards the user has no session. Other sessions stay. Without a session nothing changes. |
| Submission.CancelIdempotent | bot.py:445-447 | Cancelling twice leaves the same sessions as cancelling once. |
| Submission.FinishVideo | bot.py:450-469 | With no session, or a session with no files, both stores are unchanged and "no files" is answered. Otherwise: the session's title, poster and files become a non-empty record under the given id, with the creator recorded. The user's session is gone. Every other registry key and every other session is unchanged. The registry is exactly the previous one with the record written under the id: a new id goes last in the insertion order, and an existing id keeps its position. |
| Submission.CancelAfterFinishIsNoOp | bot.py:446-469 | After a successful Finish, a Cancel from the same admin changes nothing. |
| Submission.AddVideoKeepsInvariant | bot.py:276-285 | `/addvideo` keeps three invariants: only admins hold sessions; the collected fields fit the step; every record has a file. |
| Submission.HandleInputsKeepsInvariant | bot.py:299-338 | Incoming messages keep the same three invariants. |
| Submission.ContinueFilesKeepsInvariant | bot.py:436-439 | "Add More Files" keeps the same three invariants. |
| Submission.CancelVideoKeepsInvariant | bot.py:445-447 | "Cancel" keeps the same three invariants. |
| Submission.FinishVideoKeepsInvariant | bot.py:454-469 | Finish keeps the same three invariants. In particular it never commits a record without files. |
| Submission.TwoFilesBothAppended | bot.py:334-338 | Two media messages in a row during the files step are both kept, in arrival order, so the file list grows by exactly two. |
| Submission.ContinueFilesSkipsTitle | bot.py:437-439 | "Add More Files" pressed on a fresh session jumps straight to the files step, with no title and no poster. |
| Callbacks.RouteOf | bot.py:388-448 | `check_sub` wins first. Then `copy_…`, then `feedback_…`. Only other payloads meet the admin gate, which rejects exactly the non-admins. Finish, Add More and Cancel are reached only by an admin with exactly that payload. |
| Callbacks.DialoguePayloadsArePostGate | bot.py:429-448 | None of `finish_video`, `continue_files` or `cancel_video` is caught by a branch that runs before the admin gate. |
| Callbacks.PreGateIgnoresSender | bot.py:388-428 | The three branches before the gate route the same way for every sender, and never reach a dialogue branch. |
| Callbacks.ButtonCallback | bot.py:379-448 | Only Finish, Add More and Cancel change state, and only Finish touches the registry. `check_sub` answers "verified" exactly when the gate allows. `copy_` answers with the deep link. Cancel removes only the presser's session. Add More has exactly the effect of `ContinueFiles`: an existing session moves to the files step and keeps its title, poster and files. Finish has exactly the effect and answer of `FinishVideo`, and changes state exactly when it commits. |
| Callbacks.NonAdminDialogueButtonsInert | bot.py:429-432 | A non-admin pressing Finish, Add More or Cancel changes no session and no registry entry, and gets the admin-only alert. |
| Callbacks.ButtonCallbackKeepsInvariant | bot.py:429-448 | Every button press keeps the dialogue's invariants. |
| Callbacks.DecimalHasNoCopyPrefix | bot.py:458 | A decimal timestamp id never contains `copy_`. |
| Callbacks.CopyButtonRoundTrip | bot.py:409-414 | Pressing the `copy_<id>` button that Finish attaches to a decimal id changes nothing. It answers with a deep link whose `start` argument is that same id. |
| Delivery.AttemptFor | bot.py:539-552 | A file is sent exactly when its kind is recognised: with the matching reply method, its own file id and its own outcome. An unrecognised kind sends nothing. |
| Delivery.SentPlusFailed | bot.py:537-556 | Every file is counted either as sent or as failed, never both. So `sent_count` never exceeds the number of files. |
| Delivery.AllSentIffNoFailure | bot.py:537-556 | `sent_count` equals the number of files exactly when no send raised. |
| Delivery.DeliverFiles | bot.py:536-556 | The loop attempts every file once, in stored order. It produces exactly the functional trace, and its counter equals the number of attempts that did not raise, which is at most the number of files. |
| Delivery.Deliver | bot.py:491-556 | The guards run in this order. A non-admin the gate refuses gets "not subscribed", whatever the registry holds. An unknown id gets "not found". A record with no files gets "no files". Each of these makes no send. Otherwise there is one attempt per file, in order. Each attempt uses the reply method of that file's kind and has its own outcome. The attempts are exactly the trace that `DeliverFiles` is proved to produce. Sent plus failed equals the number of files. The poster is shown exactly when it is set and its send succeeded. |
| Delivery.PosterFailureDoesNotStopLoop | bot.py:520-538 | Whether the poster send fails or not, the same file attempts are made and the same count is reported. |
| Delivery.FailureDoesNotAbort | bot.py:538-555 | After a failed file send, the next file is still attempted with its own outcome. |
| Delivery.ThreeOfFiveFail | bot.py:536-556 | Five video files where three sends fail: all five are attempted, two are counted sent and three failed. |
| Scenario.UploadThenDeliver | bot.py:271-556 | The admin sends `/addvideo`, a title, a poster and a video, then presses Finish. The id then holds exactly that record and the session is gone. A subscribed user asking for the id is shown the poster and sent that one video. |

## Left out

- `start`, `send_force_sub_message`, `test_subscription`: only message text
  and calls into the gate and delivery, which are modelled. Only the link
  shape of the retry prompt is kept (`Links.RetryLink`).
- `broadcast`: a placeholder that always reports 0 sent and 0 failed.
- `load_data` / `save_data`: JSON file I/O. A save is a no-op after the
  in-memory commit. A loaded registry is any valid registry. This is why
  delivery still models unrecognised file kinds and empty file lists.
- The Telegram transport: replies, edits, alerts, keyboards, Markdown, emoji,
  the random thank-you text, logging and `asyncio.sleep(1)` pacing. Each send
  is reduced to a success/failure outcome.
- The `if not update.message` guards: every modelled event carries its
  message.
- The outer `try/except` of `send_video_to_user` (bot.py:492, handler at
  bot.py:590-592): it catches whatever is raised outside the poster's and the
  per-file `try` blocks. That includes a failing "not found" or "no files"
  reply (bot.py:510, 517), `video.get` on a stored record that is not a dict
  (bot.py:514), and a failing thank-you message. The handler only logs and
  answers with an error text, so none of these changes which files are sent.
  Stored values that are not dicts are not modelled. A file entry that is not
  a dict makes `f.get` (bot.py:540) raise inside the per-file `try`
  (bot.py:539), so it is logged and not counted, like a failed send. The model
  does not have such entries.
- Wall-clock ids and `created_at` timestamps: these are parameters.
- Concurrency: the code has none of its own.
- Text.Lower: lower-cases ASCII letters only. Python's `str.lower()` is
  Unicode-wide. This matters only for messages whose non-ASCII letters
  lower-case into the ASCII phrases being tested.
- Text.RemoveAll: its contract states only that the result is no longer than
  the input. Its meaning is stated by `Text.RemoveAllAbsent`,
  `Text.RemoveAllLeading` and `Text.PrefixRemovalRoundTrip`. It requires a
  non-empty pattern, which both of the bot's uses have.
- Delivery.Deliver: the outcome of each file send is `sendOk(i)`, a function
  of the file's position, rather than a sequence of outcomes. This avoids
  requiring the sequence's length to match the number of files.
