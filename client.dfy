/** The methods of the GoPro class: each sends its requests through the
    network, and the downloads write through the file store. */
module Client {
  import opened Api
  import opened Urls
  import opened Selection
  import opened Polling
  import opened Host

  /** GoPro.state: the camera's state document. */
  method State(cam: GoPro, net: Network, clock: Clock) returns (r: Result<Body>)
    modifies net
    ensures net.requests == old(net.requests) + [Request(StateUrl(cam), clock.now)]
    ensures r == JsonOf(net.answer(StateUrl(cam), |old(net.requests)|))
  {
    var x := net.Get(StateUrl(cam), clock.now);
    r := JsonOf(x);
  }

  /** GoPro.capture_photo: one shutter request, never retried; a 4xx or 5xx
      answer or a transport failure raises. */
  method CapturePhoto(cam: GoPro, net: Network, clock: Clock) returns (r: Result<Response>)
    modifies net
    ensures net.requests == old(net.requests) + [Request(ShutterUrl(cam), clock.now)]
    ensures r == Checked(net.answer(ShutterUrl(cam), |old(net.requests)|))
  {
    var x := net.Get(ShutterUrl(cam), clock.now);
    r := Checked(x);
  }

  // ------------------------------------------------------------- downloads

  /** The files after a download of `media` answered `x`: the body is
      written to the destination on status 200, and nothing changes
      otherwise. */
  function Saved(files: map<string, seq<byte>>, media: Media, x: Exchange): map<string, seq<byte>>
  {
    if x.Reply? && x.response.status == 200 then files[Destination(media) := x.response.content]
    else files
  }

  /** A download writes its destination and no other path. */
  lemma SavedKeepsOthers(files: map<string, seq<byte>>, media: Media, x: Exchange, p: string)
    requires p != Destination(media)
    ensures var after := Saved(files, media, x);
      (p in after <==> p in files) && (p in files ==> after[p] == files[p])
  {
  }

  /** GoPro.download: fetch the media URL and save the body, but only when
      the status is 200; any other status is ignored without an error. */
  method Download(net: Network, store: FileStore, clock: Clock, media: Media) returns (r: Result<()>)
    modifies net, store
    ensures net.requests == old(net.requests) + [Request(media.url, clock.now)]
    ensures var x := net.answer(media.url, |old(net.requests)|);
      && r == (if x.TransportError? then Err(NetworkError) else Ok(()))
      && store.files == Saved(old(store.files), media, x)
  {
    var x := net.Get(media.url, clock.now);
    if x.Reply? && x.response.status == 200 {
      store.Write(Destination(media), x.response.content);
    }
    r := if x.TransportError? then Err(NetworkError) else Ok(());
  }

  /** The task download_last builds from the listing reply `x`: the newest
      file of the first media group, by the stable sort on "cre". */
  function LastMedia(cam: GoPro, x: Exchange, saveDir: string): (r: Result<Media>)
    ensures r.Err? <==> ListingOf(x).Err? || ListingOf(x).value.fs == []
    ensures ListingOf(x).Err? ==> r == Err(ListingOf(x).error)
    ensures ListingOf(x).Ok? && ListingOf(x).value.fs == [] ==> r == Err(IndexError)
    ensures r.Ok? ==> r.value.saveDir == saveDir && HttpPrefix <= r.value.url
  {
    match ListingOf(x)
    case Err(e) => Err(e)
    case Ok(group) =>
      match PickLast(group.fs)
      case Err(e) => Err(e)
      case Ok(f) =>
        MediaUrlIsValid(cam.ip, group.d, f.n, saveDir);
        NewMedia(MediaUrl(cam.ip, group.d, f.n), saveDir)
  }

  /** The task download_last builds names the newest file of the listing,
      the last listed among equally new ones, and saves it under its own
      name. */
  lemma LastMediaIsNewest(cam: GoPro, x: Exchange, saveDir: string, k: int)
    requires ListingOf(x).Ok? && IsLastMaximum(ListingOf(x).value.fs, k)
    ensures var g := ListingOf(x).value;
      LastMedia(cam, x, saveDir) == Ok(Media(MediaUrl(cam.ip, g.d, g.fs[k].n), saveDir))
    ensures var g := ListingOf(x).value;
      '/' !in g.fs[k].n ==> Destination(LastMedia(cam, x, saveDir).value) == saveDir + "/" + g.fs[k].n
  {
    var g := ListingOf(x).value;
    PickLastIsLastMaximum(g.fs, k);
    MediaUrlIsValid(cam.ip, g.d, g.fs[k].n, saveDir);
    if '/' !in g.fs[k].n {
      FileNameOfMediaUrl(cam.ip, g.d, g.fs[k].n);
    }
  }

  /** What download_last does when the listing request is the session's
      request number n and both requests are sent at clock reading `at`: its
      result, the files afterwards, and the requests it sends. */
  function LastFetched(cam: GoPro, answer: (string, nat) -> Exchange, n: nat, at: int,
                       files: map<string, seq<byte>>, saveDir: string)
    : (r: (Result<()>, map<string, seq<byte>>, seq<Request>))
  {
    var lm := LastMedia(cam, answer(ListUrl(cam), n), saveDir);
    if lm.Err? then (Err(lm.error), files, [Request(ListUrl(cam), at)])
    else
      var x := answer(lm.value.url, n + 1);
      ( if x.TransportError? then Err(NetworkError) else Ok(()),
        Saved(files, lm.value, x),
        [Request(ListUrl(cam), at), Request(lm.value.url, at)] )
  }

  /** download_last end to end: after a listing whose newest file (the last
      listed among equally new ones) is fs[k], it requests that file's media
      URL and, exactly when the answer has status 200, saves the body under
      the file's own name in the save directory; any other status leaves the
      files as they were, and only a transport failure raises. */
  lemma LastFetchedSavesNewest(cam: GoPro, answer: (string, nat) -> Exchange, n: nat, at: int,
                               files: map<string, seq<byte>>, saveDir: string, k: int)
    requires ListingOf(answer(ListUrl(cam), n)).Ok?
    requires IsLastMaximum(ListingOf(answer(ListUrl(cam), n)).value.fs, k)
    requires '/' !in ListingOf(answer(ListUrl(cam), n)).value.fs[k].n
    ensures var g := ListingOf(answer(ListUrl(cam), n)).value;
      var url := MediaUrl(cam.ip, g.d, g.fs[k].n);
      var x := answer(url, n + 1);
      var f := LastFetched(cam, answer, n, at, files, saveDir);
      && f.2 == [Request(ListUrl(cam), at), Request(url, at)]
      && (f.0.Err? <==> x.TransportError?)
      && (x.Reply? && x.response.status == 200 ==> f.1 == files[saveDir + "/" + g.fs[k].n := x.response.content])
      && (!(x.Reply? && x.response.status == 200) ==> f.1 == files)
  {
    LastMediaIsNewest(cam, answer(ListUrl(cam), n), saveDir, k);
  }

  /** When the listing fails or is empty, download_last raises after its
      one request and writes nothing. */
  lemma LastFetchedWithoutFiles(cam: GoPro, answer: (string, nat) -> Exchange, n: nat, at: int,
                                files: map<string, seq<byte>>, saveDir: string)
    requires var l := ListingOf(answer(ListUrl(cam), n)); l.Err? || l.value.fs == []
    ensures var l := ListingOf(answer(ListUrl(cam), n));
      var f := LastFetched(cam, answer, n, at, files, saveDir);
      && f == (f.0, files, [Request(ListUrl(cam), at)])
      && f.0 == Err(if l.Err? then l.error else IndexError)
  {
  }

  /** GoPro.download_last: list the media, pick the newest file and
      download it. */
  method DownloadLast(cam: GoPro, net: Network, store: FileStore, clock: Clock, saveDir: string)
    returns (r: Result<()>)
    modifies net, store
    ensures var f := LastFetched(cam, net.answer, |old(net.requests)|, clock.now, old(store.files), saveDir);
      r == f.0 && store.files == f.1 && net.requests == old(net.requests) + f.2
  {
    var x := net.Get(ListUrl(cam), clock.now);
    var task := LastMedia(cam, x, saveDir);
    if task.Err? {
      r := Err(task.error);
    } else {
      r := Download(net, store, clock, task.value);
    }
  }

  /** The download tasks download_all builds for the files `fs` of
      directory `d`, in listing order. */
  function MediaTasks(cam: GoPro, d: string, fs: seq<MediaFile>, saveDir: string): (ts: seq<Media>)
    ensures |ts| == |fs|
    ensures forall j :: 0 <= j < |fs| ==> ts[j] == Media(MediaUrl(cam.ip, d, fs[j].n), saveDir)
  {
    seq(|fs|, j requires 0 <= j < |fs| => Media(MediaUrl(cam.ip, d, fs[j].n), saveDir))
  }

  /** What download_all's loop has returned after handling the first k of
      `tasks`, whose first download is the session's request number n: Ok
      until a download's transport fails, the exception from then on. */
  function AllOutcome(tasks: seq<Media>, answer: (string, nat) -> Exchange, n: nat, k: nat): Result<()>
    requires k <= |tasks|
  {
    if k == 0 then Ok(())
    else if AllOutcome(tasks, answer, n, k - 1).Err? then AllOutcome(tasks, answer, n, k - 1)
    else if answer(tasks[k - 1].url, n + k - 1).TransportError? then Err(NetworkError)
    else Ok(())
  }

  /** The download requests the loop has sent, all at clock reading `at`,
      after handling the first k tasks. */
  function AllRequests(tasks: seq<Media>, answer: (string, nat) -> Exchange, n: nat, at: int, k: nat): seq<Request>
    requires k <= |tasks|
  {
    if k == 0 then []
    else if AllOutcome(tasks, answer, n, k - 1).Err? then AllRequests(tasks, answer, n, at, k - 1)
    else AllRequests(tasks, answer, n, at, k - 1) + [Request(tasks[k - 1].url, at)]
  }

  /** The files after the loop has handled the first k tasks. */
  function AllFiles(files: map<string, seq<byte>>, tasks: seq<Media>, answer: (string, nat) -> Exchange,
                    n: nat, k: nat): map<string, seq<byte>>
    requires k <= |tasks|
  {
    if k == 0 then files
    else if AllOutcome(tasks, answer, n, k - 1).Err? then AllFiles(files, tasks, answer, n, k - 1)
    else Saved(AllFiles(files, tasks, answer, n, k - 1), tasks[k - 1], answer(tasks[k - 1].url, n + k - 1))
  }

  /** Once the loop has raised, it stays ended: later tasks send nothing
      and write nothing. */
  lemma {:induction false} AllEnds(files: map<string, seq<byte>>, tasks: seq<Media>,
                                   answer: (string, nat) -> Exchange, n: nat, at: int, k: nat, m: nat)
    requires k <= m <= |tasks|
    requires AllOutcome(tasks, answer, n, k).Err?
    ensures AllOutcome(tasks, answer, n, m) == AllOutcome(tasks, answer, n, k)
    ensures AllRequests(tasks, answer, n, at, m) == AllRequests(tasks, answer, n, at, k)
    ensures AllFiles(files, tasks, answer, n, m) == AllFiles(files, tasks, answer, n, k)
    decreases m
  {
    if k < m {
      AllEnds(files, tasks, answer, n, at, k, m - 1);
    }
  }

  /** The download of the j-th task, the session's request number n + j,
      got a reply (of any status). */
  ghost predicate Delivered(tasks: seq<Media>, answer: (string, nat) -> Exchange, n: nat, j: nat)
    requires j < |tasks|
  {
    answer(tasks[j].url, n + j).Reply?
  }

  /** download_all requests the tasks' URLs one by one, in order: one per
      task when it succeeds, never more than it has handled. */
  lemma {:induction false} AllRequestsInOrder(tasks: seq<Media>, answer: (string, nat) -> Exchange,
                                              n: nat, at: int, k: nat)
    requires k <= |tasks|
    ensures var sent := AllRequests(tasks, answer, n, at, k);
      |sent| <= k && (AllOutcome(tasks, answer, n, k).Ok? ==> |sent| == k)
    ensures var sent := AllRequests(tasks, answer, n, at, k);
      forall j :: 0 <= j < |sent| ==> sent[j] == Request(tasks[j].url, at)
    decreases k
  {
    if k > 0 {
      AllRequestsInOrder(tasks, answer, n, at, k - 1);
    }
  }

  /** download_all succeeds exactly when every download got a reply,
      whatever its status. */
  lemma {:induction false} AllOkWhenDelivered(tasks: seq<Media>, answer: (string, nat) -> Exchange, n: nat, k: nat)
    requires k <= |tasks|
    ensures AllOutcome(tasks, answer, n, k).Ok? <==> forall j :: 0 <= j < k ==> Delivered(tasks, answer, n, j)
    decreases k
  {
    if k > 0 {
      AllOkWhenDelivered(tasks, answer, n, k - 1);
      assert AllOutcome(tasks, answer, n, k).Ok? <==>
        AllOutcome(tasks, answer, n, k - 1).Ok? && Delivered(tasks, answer, n, k - 1);
    }
  }

  /** When download_all raises, it has stopped at the first transport
      failure, after requesting every URL before it. */
  lemma {:induction false} AllStopsAtFailure(tasks: seq<Media>, answer: (string, nat) -> Exchange,
                                             n: nat, at: int, k: nat)
    requires k <= |tasks|
    ensures var r, sent := AllOutcome(tasks, answer, n, k), AllRequests(tasks, answer, n, at, k);
      r.Err? ==>
        && r.error == NetworkError
        && 1 <= |sent| <= k
        && !Delivered(tasks, answer, n, |sent| - 1)
        && forall j :: 0 <= j < |sent| - 1 ==> Delivered(tasks, answer, n, j)
    decreases k
  {
    if k > 0 {
      AllStopsAtFailure(tasks, answer, n, at, k - 1);
      if AllOutcome(tasks, answer, n, k - 1).Ok? {
        AllOkWhenDelivered(tasks, answer, n, k - 1);
        AllRequestsInOrder(tasks, answer, n, at, k - 1);
        assert |AllRequests(tasks, answer, n, at, k)| == k;
      }
    }
  }

  /** download_all only writes the destinations of its tasks: every other
      path keeps its contents, or stays absent. */
  lemma {:induction false} AllFilesTouchOnlyTasks(files: map<string, seq<byte>>, tasks: seq<Media>,
                                                  answer: (string, nat) -> Exchange, n: nat, k: nat, p: string)
    requires k <= |tasks|
    requires forall j :: 0 <= j < |tasks| ==> p != Destination(tasks[j])
    ensures var after := AllFiles(files, tasks, answer, n, k);
      (p in after <==> p in files) && (p in files ==> after[p] == files[p])
    decreases k
  {
    if k > 0 {
      AllFilesTouchOnlyTasks(files, tasks, answer, n, k - 1, p);
      var prev := AllFiles(files, tasks, answer, n, k - 1);
      SavedKeepsOthers(prev, tasks[k - 1], answer(tasks[k - 1].url, n + k - 1), p);
    }
  }

  /** GoPro.download_all: list the media and download every file of the
      first group, in listing order. */
  method DownloadAll(cam: GoPro, net: Network, store: FileStore, clock: Clock, saveDir: string)
    returns (r: Result<()>)
    modifies net, store
    ensures var listing := ListingOf(net.answer(ListUrl(cam), |old(net.requests)|));
      listing.Err? ==>
        && r == Err(listing.error)
        && net.requests == old(net.requests) + [Request(ListUrl(cam), clock.now)]
        && store.files == old(store.files)
    ensures var listing := ListingOf(net.answer(ListUrl(cam), |old(net.requests)|));
      listing.Ok? ==>
        var tasks := MediaTasks(cam, listing.value.d, listing.value.fs, saveDir);
        var n := |old(net.requests)| + 1;
        && r == AllOutcome(tasks, net.answer, n, |tasks|)
        && store.files == AllFiles(old(store.files), tasks, net.answer, n, |tasks|)
        && net.requests == old(net.requests) + [Request(ListUrl(cam), clock.now)]
                           + AllRequests(tasks, net.answer, n, clock.now, |tasks|)
  {
    var x := net.Get(ListUrl(cam), clock.now);
    var listing := ListingOf(x);
    if listing.Err? {
      return Err(listing.error);
    }
    r := DownloadEach(net, store, clock, MediaTasks(cam, listing.value.d, listing.value.fs, saveDir));
  }

  /** download_all's loop: one download per task, in order; a transport
      failure ends the loop with its exception. */
  method DownloadEach(net: Network, store: FileStore, clock: Clock, tasks: seq<Media>) returns (r: Result<()>)
    modifies net, store
    ensures r == AllOutcome(tasks, net.answer, |old(net.requests)|, |tasks|)
    ensures store.files == AllFiles(old(store.files), tasks, net.answer, |old(net.requests)|, |tasks|)
    ensures net.requests == old(net.requests) + AllRequests(tasks, net.answer, |old(net.requests)|, clock.now, |tasks|)
  {
    var at := clock.now;
    ghost var start := net.requests;
    ghost var files := store.files;
    var i := 0;
    while i < |tasks|
      invariant 0 <= i <= |tasks|
      invariant AllOutcome(tasks, net.answer, |start|, i) == Ok(())
      invariant store.files == AllFiles(files, tasks, net.answer, |start|, i)
      invariant net.requests == start + AllRequests(tasks, net.answer, |start|, at, i)
    {
      AllRequestsInOrder(tasks, net.answer, |start|, at, i);
      r := Download(net, store, clock, tasks[i]);
      if r.Err? {
        AllEnds(files, tasks, net.answer, |start|, at, i + 1, |tasks|);
        return;
      }
      i := i + 1;
    }
    r := Ok(());
  }

  // ------------------------------------------------------------------ wait

  /** The requests of a wait that sent m of them, starting at clock reading t0. */
  function PollRequests(url: string, t0: int, poll: nat, m: nat): (rs: seq<Request>)
    ensures |rs| == m
  {
    if m == 0 then [] else PollRequests(url, t0, poll, m - 1) + [Request(url, t0 + (m - 1) * poll)]
  }

  /** Attempt j of a wait is sent j poll intervals after its start. */
  lemma {:induction false} PollRequestsAt(url: string, t0: int, poll: nat, m: nat)
    ensures forall j :: 0 <= j < m ==> PollRequests(url, t0, poll, m)[j] == Request(url, t0 + j * poll)
  {
    if m > 0 {
      PollRequestsAt(url, t0, poll, m - 1);
    }
  }

  /** GoPro.wait: poll the listing URL, sleeping `poll` ticks between
      attempts, until a request does not raise (True) or a failed request
      finds more than `timeout` ticks elapsed (False). */
  method Wait(cam: GoPro, net: Network, clock: Clock, poll: nat, timeout: int) returns (r: Result<bool>)
    requires poll > 0
    modifies net, clock
    ensures var w := PollFrom(net.answer, ListUrl(cam), |old(net.requests)|, poll, timeout, 0);
      && r == w.0
      && net.requests == old(net.requests) + PollRequests(ListUrl(cam), old(clock.now), poll, w.1)
      && clock.now == old(clock.now) + (w.1 - 1) * poll
  {
    var url := ListUrl(cam);
    var start := clock.now;
    ghost var first := |net.requests|;
    ghost var before := net.requests;
    var k: nat := 0;
    while true
      invariant clock.now == start + k * poll
      invariant net.requests == before + PollRequests(url, start, poll, k)
      invariant PollFrom(net.answer, url, first, poll, timeout, 0)
             == PollFrom(net.answer, url, first, poll, timeout, k)
      decreases if k * poll <= timeout then timeout - k * poll + 1 else 0
    {
      var x := net.Get(url, clock.now);
      match x {
        case TransportError =>
          return Err(NetworkError);
        case Reply(resp) =>
          if !RaisesForStatus(resp.status) {
            return Ok(true);
          }
      }
      if clock.now - start > timeout {
        return Ok(false);
      }
      clock.Sleep(poll);
      k := k + 1;
    }
  }
}
