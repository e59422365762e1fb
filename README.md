# AI video clipper: request logic, client form and maintenance scripts in Dafny

The AI video clipper lets a user cut a clip out of an online video. The project has four parts:

- a FastAPI service, `backend/main.py`:
  - `POST /clip` validates the URL and the `HH:MM:SS` start and end times, and queues a background job;
  - `GET /status/{job_id}` and `GET /download/{job_id}` report on that job and serve its clip;
- a one-page React client, `app/src/App.jsx`, whose `handleSubmit` sends the request and shows a download link or an error;
- two maintenance scripts, `scripts/frontend_ai_worker.py` and `scripts/ai_worker.py`. Each sends source files to a language model, writes back the replies it accepts, and commits them with git.

This project models the deterministic logic of those four files and proves what they promise:

| file | module | form |
|---|---|---|
| `text.dfy` | `Text` | The Python `str` operations the code relies on: `isspace`, `strip`, `split`, `join`, `splitlines`, `int` and `str` on decimal numbers. |
| `lists.dfy` | `Lists` | The order-preserving filter of a list comprehension. |
| `workspace.dfy` | `Workspace` | The working tree as a map from path to text, the log of writes and commands, and the exceptions a script can raise. |
| `backend.dfy` | `Backend` | Pure functions: the time format, `to_seconds`, the validator, `/clip`, `/status`, `/download`. |
| `clip_app.dfy` | `ClipApp` | A class `ClipForm` whose fields are the component's state cells and whose methods are `handleSubmit` split at its `await`. |
| `frontend_worker.dfy` | `FrontendWorker` | Pure functions for `clean_code_output` and the file filter. The loop of `main` is a method, `ImproveFiles`, proved against the fold `ProcessAll`. |
| `backend_worker.dfy` | `BackendWorker` | Pure functions for the filter and the `improve_code` fallback. The top-level loop is a method, `RunBackendWorker`, proved against the fold `StepAll`. |

External calls become inputs:

- FastAPI's verdict on `url` as an `AnyHttpUrl` is a boolean.
- `uuid.UUID` parsing is a predicate `isUuid`.
- `str(uuid.uuid4())` is a given job id.
- The clip files in `outputs/` are a set of paths.
- `encodeURIComponent` is a function `encode`.
- The outcome of `fetch` and `response.json()` is a datatype `FetchResult`.
- The language model's reply for a file is a function `ai` from code to an optional reply. No reply means the client raised.
- `is_safe_change` is a predicate `safe`.
- `time.time()` is a number `now`.
- The output of `git ls-files` is a list `tracked`.

Writes and git commands are appended to a log, which is part of each script's result.

The client sends one request and never polls: it never asks `/status`.

The `ClipRequest` model of `backend/main.py`, with its validator, is declared but no endpoint uses it. Its validator is still modelled, as `CheckStartEnd`, and proved to agree with the check inside `/clip`.

Observations the proofs make precise:

- The time format lets minute and second fields of 60 or more through, and they simply add up. `"00:00:99"` is 99 seconds, so a clip from `"00:00:99"` to `"00:01:00"` is turned down even though it is in order as text.
- Python's `re.match` lets `$` match before a final newline, so `"00:00:10\n"` also passes the format. `int` ignores that newline.
- `/status` says "done" as soon as a file exists at the clip path. ffmpeg creates that file when it opens its output, so "done" can come while the cut is still running, or after a cut that failed once the file existed. `/download` then serves a partial or empty file.
- `/status` never reports a failure. A job whose download failed, or whose cut failed before creating the file, stays "processing" for ever.
- In the client, `start` and `end` are put into the query without encoding. An `&` typed into them opens a further query parameter. A `#` typed into them starts the fragment, and the rest of the query never reaches the backend.
- `clean_code_output` raises `IndexError` on a fenced reply of a single line, such as a lone fence. In the frontend script that exception ends the run before the commit.
- The frontend filter's prefix `app/src` has no trailing slash, so `app/srcX/a.js` is selected too.

## Model

| member | source | states |
|---|---|---|
| Backend.IsHmsMatchesPattern | backend/main.py:70-71 | The position-by-position test accepts exactly the texts that `re.match` of `^\d{2}:\d{2}:\d{2}$` matches, `$` matching before a final newline included. |
| Backend.ToSeconds | backend/main.py:75-77 | `to_seconds` of a valid time is 3600 × hours + 60 × minutes + seconds, each field read as its two digits, and is at most 99·3600 + 99·60 + 99. |
| Backend.SplitHms | backend/main.py:76 | `t.split(":")` of a valid time gives exactly its three fields. |
| Backend.FormatThenToSeconds | backend/main.py:70-71 | Any three two-digit fields make a time the format accepts, and its seconds are 3600 h + 60 m + s. |
| Backend.ToFieldsThenFormat | backend/main.py:70-71 | A valid time is the `HH:MM:SS` spelling of its own three fields, up to the optional final newline. |
| Backend.OverflowingFieldsAddUp | backend/main.py:70-77 | Fields of 60 or more are accepted and add up: `"00:00:99"` is 99 s; `"00:00:60"` and `"00:01:00"` are both 60 s. |
| Backend.CheckStartEnd | backend/main.py:40-51 | The validator fails with "end must be after start" exactly when `start` is present and `end` is not later in seconds. Otherwise it returns `end` unchanged. |
| Backend.InvalidParams | backend/main.py:69-71 | The 422 names `url`, `start` and `end` each exactly when that parameter fails its type, in the order of the signature, and names nothing else. It is empty exactly when all three are valid. |
| Backend.ClipPath | backend/main.py:86 | The clip path is `outputs/`, then the job id, then `_clip.mp4`. The id can be read back from the path. |
| Backend.Clip | backend/main.py:67-135 | 422 exactly when a parameter is ill-typed, naming exactly the parameters `InvalidParams` gives. 400 "End time must be after start time" exactly when the times are valid and end ≤ start in seconds. Success exactly when start < end, with status "processing", the new job id, and `/status/` and `/download/` URLs built from it. |
| Backend.ValidatorAgreesWithHandler | backend/main.py:40-51 | For valid times, the validator accepts exactly the requests that `/clip` accepts. |
| Backend.TextOrderIsNotTimeOrder | backend/main.py:79-82 | The check compares seconds, not text: `"00:00:99"` sorts before `"00:01:00"`, yet that clip is refused with 400. |
| Backend.JobFiles | backend/main.py:88-126 | At each stage of the background job, only the job's own clip path can have been added. It exists exactly once ffmpeg has opened its output: while the cut runs, after the cut completes, and after a cut that failed later. |
| Backend.ClipFileStays | backend/main.py:88-126 | Once the clip file exists, no later stage of the job removes it. |
| Backend.ClipPathInjective | backend/main.py:86 | Different job ids never share a clip path `outputs/{id}_clip.mp4`. |
| Backend.Status | backend/main.py:138-151 | 400 "Invalid job_id format" exactly for ids that fail to parse. Otherwise the body's `status` is "done" exactly when the clip file exists, else "processing". |
| Backend.Download | backend/main.py:154-171 | 400 for an id that fails to parse, checked first. Then 404 "Clip not found" when the file is absent. Success exactly when the id parses and the file exists, serving that path as `video/mp4` named `clip.mp4`. |
| Backend.DownloadAgreesWithStatus | backend/main.py:146-165 | `/download` serves exactly when `/status` says "done". It gives 404 exactly when `/status` says "processing", and 400 exactly when `/status` refuses the id. |
| Backend.JobLifecycle | backend/main.py:84-151 | An accepted job reads "processing" until a file exists at its clip path. From then on it reads "done" and is downloadable, whatever stage the job is at. |
| Backend.StatusIsNotCompletion | backend/main.py:103-151 | "done" also while the cut is running with its output created, and after a cut that failed once the file existed, which `/download` then serves. A failed download, or a cut that failed before creating the file, is final and reads "processing" for ever. |
| ClipApp.Settle | app/src/App.jsx:17-38 | Error and link are never both set. A link is set exactly on an ok JSON response, and is `https://ai-clipper-backend.onrender.com/download/` + `job_id`. A non-ok JSON response shows `detail` when truthy, else "Error generating clip". A body that is not JSON, or a network failure, shows the thrown message. |
| ClipApp.ClipForm.constructor | app/src/App.jsx:4-9 | All texts start empty and `loading` false. The form is consistent and can be submitted. |
| ClipApp.ClipForm.SetUrl | app/src/App.jsx:61 | The URL field's handler sets `url` and nothing else. |
| ClipApp.ClipForm.SetStart | app/src/App.jsx:76 | The start field's handler sets `start` and nothing else. |
| ClipApp.ClipForm.SetEnd | app/src/App.jsx:94 | The end field's handler sets `end` and nothing else. |
| ClipApp.ClipForm.BeginSubmit | app/src/App.jsx:13-25 | Before the `await`, both messages are cleared and `loading` is set, which disables the button. The request is a `POST` to `/clip?url=` + encode(url) + `&start=` + start + `&end=` + end on the backend host. |
| ClipApp.ClipForm.FinishSubmit | app/src/App.jsx:27-40 | After the `await`, `error` and `downloadUrl` are what `Settle` gives for the outcome, `loading` is false and the button is enabled again. |
| ClipApp.ClipForm.HandleSubmit | app/src/App.jsx:11-41 | The whole handler sends the request for the current fields, settles the messages as `Settle` says, and always ends with `loading` false and the two messages never both shown. |
| ClipApp.ClipRequestUrl | app/src/App.jsx:18-21 | The address is the backend host's `/clip?` followed by the query. |
| ClipApp.QueryParameters | app/src/App.jsx:18-21 | The query string as built: with an encoded URL and times free of `&`, it splits into exactly the parameters `url`, `start` and `end`. What `fetch` sends of it is the subject of `HashCutsQuery`. |
| ClipApp.UnencodedStartAddsParameter | app/src/App.jsx:19-21 | Because `start` is not encoded, an `&` in it gives the query more than three parameters. |
| ClipApp.HashCutsQuery | app/src/App.jsx:19-21 | A `#` in `start` or `end` cuts what `fetch` sends short of the whole address. When it is in `start`, the cut comes before the end of `start`, so `end` is never sent. |
| ClipApp.LinkMatchesBackend | app/src/App.jsx:33-35 | For a response the backend's `/clip` sends, the client's link is the backend host followed by that response's `download_url`. |
| FrontendWorker.DropFences | scripts/frontend_ai_worker.py:17-21 | The line handling fails with `IndexError` exactly when only one line is there and it is a fence, the case where `lines[-1]` is taken of an empty list. |
| FrontendWorker.CleanCodeOutput | scripts/frontend_ai_worker.py:13-22 | Text that does not start with three backticks is returned unchanged. The only failure is `IndexError`. |
| FrontendWorker.IndentedFenceIsKept | scripts/frontend_ai_worker.py:14-22 | Whitespace before a fence makes the text count as unfenced: it is returned unchanged. |
| FrontendWorker.FirstLineIsFence | scripts/frontend_ai_worker.py:14-17 | Fenced text stays fenced through `strip`, and its first line starts with the fence, so the first line is always dropped. |
| FrontendWorker.CleanDropsFirstLine | scripts/frontend_ai_worker.py:15-21 | For fenced text the result is the stripped text's lines minus the first, or `IndexError` when none remain. The last remaining line is dropped exactly when it starts with a fence. The rest is joined with `\n`. |
| FrontendWorker.CleanFailsIff | scripts/frontend_ai_worker.py:16-19 | Fenced text fails exactly when its stripped form has no line break. |
| FrontendWorker.OneLineFails | scripts/frontend_ai_worker.py:16-19 | A fenced single line, such as a lone fence, fails with `IndexError`. |
| FrontendWorker.CleanIgnoresTrailingSpace | scripts/frontend_ai_worker.py:15 | Trailing whitespace after fenced text changes nothing, as it is stripped first. |
| FrontendWorker.CleanBetweenFences | scripts/frontend_ai_worker.py:17-21 | Stripped fenced text whose last line is a fence comes back as the lines in between, joined with `\n`. |
| FrontendWorker.CleanUnfences | scripts/frontend_ai_worker.py:13-22 | Round trip: ```` ```lang ```` + `\n` + body + `\n` + ```` ``` ```` cleans to exactly the body, when the body breaks its lines with `\n` only. |
| FrontendWorker.ImproveFrontend | scripts/frontend_ai_worker.py:63-87 | A failed model call raises. Otherwise the result is `clean_code_output` of the stripped reply, so a reply that is not fenced comes back stripped and otherwise as it is. |
| FrontendWorker.ImproveFrontendFailsIff | scripts/frontend_ai_worker.py:82-87 | `improve_frontend` raises exactly when the model call fails or the stripped reply is a single fenced line. |
| FrontendWorker.FrontendFiles | scripts/frontend_ai_worker.py:30-34 | Keeps exactly the tracked paths that start with `app/src` and end in `.jsx`, `.js` or `.tsx`. |
| FrontendWorker.FrontendFilesInOrder | scripts/frontend_ai_worker.py:30-34 | The selection keeps the listing's order: filtering a concatenation is concatenating the filtered parts. |
| FrontendWorker.SiblingDirectorySelected | scripts/frontend_ai_worker.py:32-33 | `app/srcX/a.js` is selected, because the prefix has no slash. `app/src/a.ts` is not selected. |
| FrontendWorker.Revision | scripts/frontend_ai_worker.py:104-116 | A file changes exactly when the cleaned reply is non-empty, differs from the original and is judged safe, and then it becomes that cleaned reply. It fails exactly when `improve_frontend` raises, with the same exception. |
| FrontendWorker.Step | scripts/frontend_ai_worker.py:100-116 | One iteration raises `FileNotFoundError` for an unreadable file, and the call's or the cleaner's own exception for a failing `improve_frontend`. Otherwise it writes and stages the file exactly when the file changes, leaves every other file alone, and does nothing once an exception has escaped. An iteration that raises leaves the tree and the log as they were. |
| FrontendWorker.ProcessAll | scripts/frontend_ai_worker.py:100-116 | The loop keeps the set of paths, leaves files outside the listing untouched, and an escaped exception stays final. |
| FrontendWorker.ProcessAllLog | scripts/frontend_ai_worker.py:115-116 | The loop only appends to the log, and only writes of listed files and `git add`s of listed files. |
| FrontendWorker.ProcessAllAppend | scripts/frontend_ai_worker.py:100 | Processing two listings one after the other is processing their concatenation. |
| FrontendWorker.ProcessAllRevises | scripts/frontend_ai_worker.py:100-116 | In a completed loop over a listing without repeats, each listed file existed, its `Revision` succeeded, and the file ends as that `Revision`. |
| FrontendWorker.AbortIsFinal | scripts/frontend_ai_worker.py:103-104 | Once an exception escapes on some file, the remaining files change nothing. |
| FrontendWorker.BranchNameInjective | scripts/frontend_ai_worker.py:97 | Runs started at different seconds use different branch names. |
| FrontendWorker.FrontendLoop | scripts/frontend_ai_worker.py:97-116 | After the checkout, the loop keeps the set of paths and never touches a file that is not a frontend source. |
| FrontendWorker.FrontendLoopLog | scripts/frontend_ai_worker.py:98-116 | The loop's log begins with the checkout of the run's branch and holds no commit. |
| FrontendWorker.FrontendRun | scripts/frontend_ai_worker.py:90-119 | No frontend files means no action at all. Otherwise the log begins with the branch checkout. Only frontend sources can change. Between the checkout and the commit, the log holds only writes and `git add`s of selected files. `git commit` is run exactly when files exist and nothing raised, whether or not anything changed, and a push of the branch comes last. |
| FrontendWorker.FrontendRunContents | scripts/frontend_ai_worker.py:100-116 | After a completed run over a listing without repeats, every selected file holds its `Revision`. |
| FrontendWorker.ImproveFiles | scripts/frontend_ai_worker.py:100-116 | The `for` loop, with its `continue`s and an exception leaving it at once, computes exactly `ProcessAll`. |
| FrontendWorker.RunFrontendWorker | scripts/frontend_ai_worker.py:90-119 | The script as written computes exactly `FrontendRun`: tree, actions and escaped exception. |
| BackendWorker.BackendFiles | scripts/ai_worker.py:14-17 | Keeps exactly the tracked paths that start with `backend/` and end in `.py`. |
| BackendWorker.BackendFilesInOrder | scripts/ai_worker.py:14-17 | The selection keeps the listing's order. |
| BackendWorker.ImproveCode | scripts/ai_worker.py:30-58 | A failed model call gives back the code itself. Otherwise the result is the reply. |
| BackendWorker.FailedCallRewritesNothing | scripts/ai_worker.py:56-58 | A failed model call never leads to a rewrite. |
| BackendWorker.PaddingIsNoChange | scripts/ai_worker.py:69 | Whitespace added around the code, or removed from around it, never counts as a change, in either direction. |
| BackendWorker.Revision | scripts/ai_worker.py:66-71 | A file's text changes only to the reply, and exactly when the reply differs from the original once both are stripped. |
| BackendWorker.Step | scripts/ai_worker.py:65-74 | One iteration skips an unreadable file. Otherwise it updates the file to its `Revision`. It logs a write exactly when the file is rewritten, and sets `changes_made` when it does. |
| BackendWorker.StepAll | scripts/ai_worker.py:64-74 | The loop keeps the set of paths and leaves files outside the listing untouched. |
| BackendWorker.StepAllLog | scripts/ai_worker.py:62-71 | The loop only appends writes of listed files. `changes_made` ends true exactly when it was true already or something was written, so it is never reset. |
| BackendWorker.StepAllAppend | scripts/ai_worker.py:64 | Processing two listings one after the other is processing their concatenation. |
| BackendWorker.UnreadableFileIsSkipped | scripts/ai_worker.py:64-74 | A file that cannot be read is skipped, and the files after it are processed as if it were not listed. |
| BackendWorker.StepAllRevises | scripts/ai_worker.py:64-71 | Over a listing without repeats, each readable listed file ends as its `Revision`. |
| BackendWorker.StepAllKeepsWithoutWrites | scripts/ai_worker.py:69-71 | A loop that wrote nothing left every file as it was. |
| BackendWorker.BackendLoopLog | scripts/ai_worker.py:61-74 | The loop logs only writes of backend files, and `changes_made` is true exactly when it logged anything. |
| BackendWorker.BackendLoopKeeps | scripts/ai_worker.py:61-74 | A loop that wrote nothing leaves the whole tree as it was. |
| BackendWorker.BackendRun | scripts/ai_worker.py:61-85 | Only backend files are written. `changes_made` holds exactly when a write happened. Then every entry before the six git commands is a write, and the six commands follow, in order, and nothing else. Without changes, the log is empty and the tree unchanged. |
| BackendWorker.BackendRunContents | scripts/ai_worker.py:64-71 | Over a listing without repeats, every readable backend file ends as its `Revision`. |
| BackendWorker.RunBackendWorker | scripts/ai_worker.py:61-85 | The script as written, with its `try`/`except` loop and the final `if`, computes exactly `BackendRun`. |
| Text.StripStrip | scripts/frontend_ai_worker.py:15 | `strip` is idempotent, so stripping the already stripped reply again changes nothing. |
| Text.StripPadded | scripts/ai_worker.py:69 | Whitespace around a text never changes its `strip`. |
| Text.SplitLinesAfter | scripts/frontend_ai_worker.py:16 | For text whose only breaks are `\n`, `splitlines` agrees with `split("\n")` up to the next `\n`. |
| Text.JoinSplit | scripts/frontend_ai_worker.py:21 | Joining the parts of a split with the separator gives the text back. |
| Text.DecimalOfNatToString | scripts/frontend_ai_worker.py:97 | `str` of a natural number reads back as that number, so a branch name determines its timestamp. |

## Left out

- `process_clip` (the `yt-dlp` and `ffmpeg` subprocesses and the deletion of the downloaded video) is reduced to its stages and their effect on the output directory, `Backend.JobFiles`. The clip file exists from the moment ffmpeg opens its output, and it stays after a cut that fails later. The contents of that file, partial or complete, are not modelled. A failed deletion of the downloaded video is logged as a failure but leaves the clip as a completed job does.
- FastAPI itself: CORS, logging, `BackgroundTasks`, the `FileResponse` stream, and the `/` and `/login` endpoints, which only echo.
- Backend.IsHms: reads `\d` as the ASCII digits; Python's `\d` also matches other Unicode decimal digits, which `int` would then read.
- Backend.Clip: takes the three query parameters as present. A missing parameter, which FastAPI also rejects with 422, is not modelled, and neither is the body of a 422 reply.
- Backend.Status and Backend.Download: `uuid.UUID` parsing is the input predicate `isUuid`, and the disk is a set of paths.
- ClipApp.Settle: a body of `null` is not modelled. It parses as JSON, and reading `data.job_id` or `data.detail` from it then throws a `TypeError`, whose message is shown as for a body that is not JSON (`NotJson`).
- ClipApp.Settle: `detail` is taken as a string or absent. A `detail` of another type, such as the list FastAPI sends with a 422, would show its JavaScript string conversion; that is not modelled.
- ClipApp.ClipForm.BeginSubmit: `encodeURIComponent` is the input function `encode`. It is assumed to escape `&` and `#` only where a lemma says so. The request's only option modelled is its method, `POST`.
- How React schedules state updates and re-renders, the rendering itself, and the styles. `app/src/main.jsx` only mounts the component, and `app/vite.config.js` is development proxy configuration; neither is part of this model.
- FrontendWorker.ImproveFrontend: the prompt text and the model's behaviour are not modelled. The reply is an arbitrary function of the file's code.
- `is_safe_change`, with its `difflib` diff and floating-point ratio against 1.2, is the input predicate `safe`. Its `print`s are not modelled.
- FrontendWorker.FrontendRun: the git commands are logged, not run. A non-zero exit of `subprocess.run` without `check` does not raise, so it does not change the script's course. A `git commit` with nothing staged makes no commit. A missing `git` executable, which would raise, is not modelled. `time.time()` is the input `now`.
- Both scripts: `print`, an environment without `OPENAI_API_KEY`, a `git ls-files` that fails, and a write that fails are not modelled. A read of a path missing from the tree is the only read failure modelled: `FileNotFound`.
- BackendWorker.ImproveCode: any exception of the client is the same "no reply" input, and the reply is an arbitrary function of the code.
