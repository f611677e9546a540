# GoPro photo capture client, modelled in Dafny

`capture_photo.py` drives a GoPro camera over its HTTP interface. It
defines two validated models and a client:

- `Media` is a download task: a media URL and a save directory.
- `GoPro` holds the camera's address, its base URL and a debug flag.
- The client methods are `state`, `capture_photo`, `download`,
  `download_all`, `download_last` and `wait`.
- `main()` takes a photo, waits until the media list answers, then
  downloads the newest file.

This project models that core and proves what it promises.

The project is split into these modules:

- **Api** (`api.dfy`) holds the data that crosses the wire:
  - a `Response` carries a status, a body of bytes and the parsed JSON;
  - an `Exchange` is either a reply or a transport failure;
  - `raise_for_status` is modelled as `RaisesForStatus`, which is true for
    statuses 400 to 599;
  - `response.json()['media'][0]` is modelled as `ListingOf`, with one error
    per way it can fail.
- **Urls** (`urls.dfy`) holds the `http://` field validator, the `Media` and
  `GoPro` constructors and every URL the client builds. It also has the
  file name a download is saved under.
- **Selection** (`selection.dfy`) models `sorted(files, key=cre)[-1]`. It is
  an insertion sort that is proved sorted, a permutation and stable. The
  lemmas show that it is the only stable sort by creation time, and that
  the pick is the last file among the newest ones.
- **Host** (`host.dfy`) models the world the client acts on, as three
  objects:
  - a `Network`: the camera's answer to the session's n-th request is
    `answer(url, n)`, and every request is logged with the clock reading;
  - a `Clock`, counted in integer ticks of a tenth of a second;
  - a `FileStore`, a map from path to contents.
- **Polling** (`polling.dfy`) states the outcome of `wait` as a recursive
  function of the camera's answers, with lemmas saying how it ends.
- **Client** (`client.dfy`) has each method of the `GoPro` class as an
  imperative method over the host objects. Each method is proved against
  a specification function: `LastFetched` for `download_last`,
  `AllOutcome`/`AllRequests`/`AllFiles` for `download_all`, and `PollFrom`
  for `wait`.
- **Workflow** (`workflow.dfy`) models `main()` after its debug block: the
  capture, the wait and the download. `Session` specifies it, with lemmas
  about when files change.

Where the code cannot run as written, the model follows the evident
intent, and each case is stated here:

- The validators call `startwitch`; the model uses `startswith`.
- The `save_dir` validator calls `os.makedirs` without importing `os` and
  returns `None`. The model keeps the directory as given and does not
  model directory creation.
- `download` prints and writes `./photos/{name}` with `name` undefined.
  The model writes to `save_dir/<last segment of the URL>`.
- `download_all` and `download_last` call `self.download` with the wrong
  arguments. The model downloads the `Media` task each of them builds.
- `wait` has an `else: raise` after its `try`. It is unreachable, because
  the `try` block always returns or raises first, so it is not modelled.

Three points about the code that are easy to misread are modelled as the
code has them:

- **Ties on `cre`.** `sorted` is stable (capture_photo.py:106-107), so the
  file listed last among the equally new ones is downloaded. The file with
  the greatest name is not preferred.
- **Errors during `wait`.** Its docstring (capture_photo.py:118-119) says it
  polls "until it responds without error". The `except` at line 139 catches
  only `HTTPError`, so a transport failure (`ConnectionError`) ends the wait
  with that exception instead of being retried.
- **Which statuses raise.** `raise_for_status` raises only for 4xx and
  5xx, so 1xx and 3xx answers count as success.

## Model

| member | source | states |
|---|---|---|
| Urls.ValidateHttpUrl | capture_photo.py:12-16 | accepts exactly the strings starting with "http://" and returns them unchanged; otherwise a validation error |
| Urls.SchemeDecidesValidation | capture_photo.py:12-16 | for `scheme://rest` with a colon-free scheme, validation succeeds iff the scheme is "http" |
| Urls.OtherSchemesRejected | capture_photo.py:28-32 | "https://" and "ftp://" base URLs are rejected with a validation error |
| Urls.BaseUrl | capture_photo.py:25 | the default base URL for an address, `http://<ip>/gopro`; its properties are stated by Urls.NewGoPro, Urls.MediaUrlBesideBaseUrl and Urls.OneHostPerSession |
| Urls.NewMedia | capture_photo.py:7-16 | a `Media` is built iff its URL starts with "http://", keeping URL and directory |
| Urls.FileName | capture_photo.py:67 | the name a download is saved under, the URL's last segment; stated by Urls.FileNameIsLastSegment |
| Urls.Destination | capture_photo.py:67 | the saved path, save directory + "/" + file name; Client.LastMediaIsNewest states it for download_last |
| Urls.FileNameIsLastSegment | capture_photo.py:67 | the saved file name is the URL's last segment: no '/', a suffix of the URL, preceded by '/' when shorter |
| Urls.NewGoPro | capture_photo.py:23-32 | an explicit base URL is validated and kept; without one the base URL is exactly `http://<ip>/gopro` for the given address |
| Urls.NewGoProAsWritten | capture_photo.py:24-25 | as written, the default base URL always names the default address |
| Urls.MainGoPro | capture_photo.py:158-159 | main's camera: default address, base URL http://10.5.5.9:8080/gopro, debug on |
| Urls.StateUrl | capture_photo.py:40 | the state endpoint, base URL + "/camera/state"; Urls.EndpointsExtendBaseUrl states that it extends the base URL and is an http URL |
| Urls.ShutterUrl | capture_photo.py:51 | the shutter endpoint, base URL + "/camera/shutter/start"; stated by Urls.EndpointsExtendBaseUrl |
| Urls.ListUrl | capture_photo.py:133 | the media list endpoint, base URL + "/media/list", built alike at lines 74 and 99; stated by Urls.EndpointsExtendBaseUrl |
| Urls.MediaUrl | capture_photo.py:110 | `http://<ip>/videos/DCIM/<d>/<n>`, built alike at line 90; Urls.MediaUrlIsValid, Urls.FileNameOfMediaUrl and Urls.MediaUrlBesideBaseUrl state its properties |
| Urls.EndpointsExtendBaseUrl | capture_photo.py:40-51 | the state, shutter and list URLs (also built at lines 74, 99, 133) extend the base URL plus "/" and pass the validator |
| Urls.MediaUrlIsValid | capture_photo.py:88-92 | every media URL download_all and download_last build passes the `Media` validator |
| Urls.FileNameOfMediaUrl | capture_photo.py:109-112 | a media URL's saved name is the listed file name, when that name holds no '/' |
| Urls.MediaUrlBesideBaseUrl | capture_photo.py:90 | media URLs share the host of the base URL but are not under it ("/videos" beside "/gopro") |
| Urls.OneHostPerSession | capture_photo.py:24-25 | with the intended default, endpoints and media URLs all live on the configured address |
| Urls.EndpointsIgnoreIpAsWritten | capture_photo.py:24-25 | as written, a camera at 192.168.0.10 polls the default address but downloads from its own |
| Api.Checked | capture_photo.py:41-42 | a request plus raise_for_status succeeds iff a reply came with a status outside 400-599; otherwise HTTPError(status) or the transport error |
| Api.JsonOf | capture_photo.py:43 | response.json() succeeds iff the checked reply parses; errors of the check propagate unchanged |
| Api.ListingOf | capture_photo.py:103-105 | `['media'][0]` yields the first group; missing key, empty array and earlier failures each give their error |
| Selection.SortByCre | capture_photo.py:106 | `sorted(files, key=cre)` as an insertion sort that keeps the length; its order, permutation and stability are the lemmas below |
| Selection.PickLast | capture_photo.py:107 | `[-1]` fails with IndexError exactly on an empty listing |
| Selection.SortByCrePermutes | capture_photo.py:106 | the sort is a permutation of the listing |
| Selection.SortByCreIsSorted | capture_photo.py:106 | the sort is ordered by creation time |
| Selection.SortByCreIsStable | capture_photo.py:106 | files with equal creation time keep their listing order |
| Selection.SortByCreIsTheStableSort | capture_photo.py:106 | any creation-time ordering that keeps equal times in listing order equals the sort |
| Selection.StableOrderIsUnique | capture_photo.py:106 | two sorted sequences that agree on every equal-time group are equal |
| Selection.PickLastIsMaximum | capture_photo.py:106-107 | the chosen file is in the listing and none is newer |
| Selection.PickLastIsLastMaximum | capture_photo.py:106-107 | the chosen file is the last listed among the newest |
| Selection.LastMaximumExists | capture_photo.py:106-107 | every non-empty listing has a last newest file |
| Selection.NewerFileChosen | capture_photo.py:106-107 | of two files the newer is chosen |
| Selection.TieGoesToLastListed | capture_photo.py:106-107 | of two equally new files the one listed last is chosen |
| Polling.PollFrom | capture_photo.py:130-151 | the outcome of wait and the number of requests it sends, which is more than the attempts before it; how it ends is stated by the lemmas below |
| Polling.PollStopsAtFirstNonRetry | capture_photo.py:130-151 | the wait stops at the first attempt that does not retry, every earlier one retried, and the verdict is that attempt's |
| Polling.PollDecidedAt | capture_photo.py:130-151 | conversely, if attempts before n retry and n does not, the wait sends exactly n+1 requests with n's verdict |
| Polling.WaitOutcome | capture_photo.py:128-151 | True iff the last request did not raise; False iff it raised with the elapsed time over the timeout; an exception iff the transport failed |
| Polling.EarlierAttemptsRetried | capture_photo.py:139-151 | every attempt before the last failed with an HTTP error within the timeout |
| Polling.ReadyOnThirdAttempt | capture_photo.py:130-151 | two failures then success: three requests, True |
| Polling.TimesOutOnFourthAttempt | capture_photo.py:146-151 | the timeout check follows each request: every 2 ticks with a 5-tick timeout gives four requests, then False |
| Host.Network.Get | capture_photo.py:134 | a GET is logged with its clock reading and answered by the camera's answer to that request number |
| Host.Clock.Sleep | capture_photo.py:151 | sleeping advances the clock by the interval |
| Host.FileStore.Write | capture_photo.py:67-68 | writing a file sets that path's contents and nothing else |
| Client.State | capture_photo.py:34-43 | one state request; the result is its checked JSON body |
| Client.CapturePhoto | capture_photo.py:45-54 | one shutter request, never retried; the result is the checked response |
| Client.Saved | capture_photo.py:65-68 | the files after one download: the destination gets the body on status 200 only; Client.SavedKeepsOthers states that no other path changes |
| Client.SavedKeepsOthers | capture_photo.py:65-68 | a download leaves every path other than its destination as it was |
| Client.Download | capture_photo.py:56-70 | one request to the media URL; the body is saved on status 200 only; other statuses are ignored; only a transport failure raises |
| Client.LastMedia | capture_photo.py:97-112 | the task fails iff the listing fails or is empty (with that error); otherwise an http URL under the given directory |
| Client.LastMediaIsNewest | capture_photo.py:103-112 | the task names the last newest listed file, in its group's directory, saved under its own name |
| Client.LastFetched | capture_photo.py:97-115 | download_last's result, files and requests; stated by Client.LastFetchedSavesNewest and Client.LastFetchedWithoutFiles |
| Client.LastFetchedSavesNewest | capture_photo.py:97-115 | after a good listing, exactly the list and media requests are sent and the newest file is saved iff its download answered 200 |
| Client.LastFetchedWithoutFiles | capture_photo.py:99-107 | a failed or empty listing raises after one request and writes nothing |
| Client.DownloadLast | capture_photo.py:97-115 | result, files and requests are those of LastFetched |
| Client.MediaTasks | capture_photo.py:88-92 | one task per listed file, in order, with the file's media URL and the save directory |
| Client.AllEnds | capture_photo.py:88-93 | once a download has raised, later tasks send and write nothing |
| Client.AllRequestsInOrder | capture_photo.py:88-93 | download_all requests the task URLs in listing order, one per task when it succeeds |
| Client.AllOkWhenDelivered | capture_photo.py:88-93 | download_all succeeds iff every download got a reply, whatever its status |
| Client.AllStopsAtFailure | capture_photo.py:88-93 | when it raises, it stopped at the first transport failure after requesting every URL before it |
| Client.AllFilesTouchOnlyTasks | capture_photo.py:88-93 | only the tasks' destinations can change |
| Client.DownloadAll | capture_photo.py:72-95 | a failed listing raises after one request; otherwise result, files and requests are those of the task loop |
| Client.DownloadEach | capture_photo.py:88-93 | the loop's result, files and requests are AllOutcome, AllFiles and AllRequests |
| Client.PollRequestsAt | capture_photo.py:130-151 | attempt j of a wait is sent j intervals after its start |
| Client.Wait | capture_photo.py:117-153 | result, requests and final clock are those of PollFrom: one list request per attempt, one interval apart |
| Workflow.AfterCapture | capture_photo.py:167-169 | wait, then download_last only when it returned True; Workflow.SessionDownloadsOnlyWhenReady and Workflow.SessionWritesOnlyWhenReady state its effect |
| Workflow.Session | capture_photo.py:166-169 | capture, wait and download_last in order: result, files, requests and clock; stated by the Session lemmas below |
| Workflow.SessionStopsAtFailedCapture | capture_photo.py:166 | a capture that raises ends main after one request, with no time spent and no file written |
| Workflow.SessionPollsAfterCapture | capture_photo.py:166-167 | after a good capture, main polls the list URL once per interval from the capture's time |
| Workflow.SessionDownloadsOnlyWhenReady | capture_photo.py:167-169 | when the wait does not return True, main ends with its verdict and writes nothing |
| Workflow.SessionWritesOnlyWhenReady | capture_photo.py:166-169 | files change only if the capture succeeded, the wait returned True and main returns success |
| Workflow.ReadyCameraFetchesNewer | capture_photo.py:97-115 | against a camera listing an older and a newer file, download_last saves the newer one |
| Workflow.ReadyCameraSavesNewer | capture_photo.py:156-169 | a whole session against a ready camera: four requests, no time spent, the newer file saved |
| Workflow.WaitThenFetch | capture_photo.py:167-169 | wait, then download_last only on True, as AfterCapture states |
| Workflow.CaptureAndFetch | capture_photo.py:166-169 | result, files, requests and clock are those of Session |
| Workflow.RunMain | capture_photo.py:156-169 | main after its debug block, with its defaults (0.5 s interval, 5 s timeout, ./photos): result, files, requests and clock are those of Session, and files change only when main succeeds |

## Left out

- Client.Wait: requires a positive poll interval. With an interval of 0, the source re-polls at once until the wall clock passes the timeout. On a clock that only sleeping moves, that loop would never end.
- Client.Wait: time is counted in whole ticks of a tenth of a second, and requests take no time. A request's own latency does not count towards the timeout.
- Urls.ValidateHttpUrl: checks the raw string only. pydantic's `HttpUrl` parsing and normalisation are not modelled.
- Urls.NewMedia: does not create the save directory. `os.makedirs` is file-system I/O.
- Debug output and main's debug block are not modelled. The model starts main at the capture (line 166), so `Session` lacks three effects of the code as written:
  - with `debug = True` (line 158), main first sends a GET to the state endpoint (line 162). That call raises on a 4xx or 5xx reply, a transport failure, a body that is not JSON or a missing `status` key, and any of these ends main before the capture;
  - `gopro.info()` (line 163) does not exist, so as written main always raises `AttributeError` there;
  - with debug on, `download_all` also writes `response.json` to disk (lines 83-84). The file store does not record that file, so Client.AllFilesTouchOnlyTasks holds only with debug off.

  `state()` itself is modelled as Client.State. `print` and `warnings.warn` only write to the console.
- JSON content: a missing `media` key is modelled as a parse error instead of Python's `KeyError`. A body that is valid JSON but not an object (a list, a string, `null`) cannot be represented: for it, `state()` would succeed (line 43) and the listing's `['media']` would raise `TypeError` (line 103). Missing `d`, `fs`, `n` or `cre` keys, and non-integer `cre` values, are excluded by the datatypes.
- Client.Download: errors while writing the file (permissions, full disk) are not modelled.
- Client.DownloadAll: builds all tasks before the loop, where the source builds each one inside it. This is equivalent, because every media URL passes the validator (Urls.MediaUrlIsValid).

## Findings

| source | as written | input that shows it | evidently intended | confidence | as-written member | corrected member |
|---|---|---|---|---|---|---|
| capture_photo.py:24-25 | the default `base_url` is computed once, when the class is defined, from the default `gopro_ip` | `GoPro(gopro_ip="192.168.0.10")` has base URL `http://10.5.5.9:8080/gopro`, so it polls the default address but downloads from 192.168.0.10 | the default base URL follows the configured address | not executed | Urls.EndpointsIgnoreIpAsWritten | Urls.OneHostPerSession |
