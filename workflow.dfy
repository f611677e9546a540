/** main(): capture a photo, wait until the media list answers, and
    download the newest file only when the wait reported the camera ready. */
module Workflow {
  import opened Api
  import opened Urls
  import opened Polling
  import opened Host
  import opened Client

  /** The model's clock counts tenths of a second. */
  const TicksPerSecond: nat := 10

  /** wait()'s defaults: poll_interval = 0.5 s, timeout = 5 s. */
  const DefaultPoll: nat := TicksPerSecond / 2
  const DefaultTimeout: int := 5 * TicksPerSecond

  /** What main() does once the capture went through, when the wait's first
      request is the session's request number n and the clock reads t0: the
      wait, then download_last if the wait returned True. */
  function AfterCapture(cam: GoPro, answer: (string, nat) -> Exchange, n: nat, t0: int,
                        files: map<string, seq<byte>>, poll: nat, timeout: int, saveDir: string)
    : (r: (Result<bool>, map<string, seq<byte>>, seq<Request>, int))
    requires poll > 0
  {
    var w := PollFrom(answer, ListUrl(cam), n, poll, timeout, 0);
    var polled := PollRequests(ListUrl(cam), t0, poll, w.1);
    var t := t0 + (w.1 - 1) * poll;
    if w.0 != Ok(true) then (w.0, files, polled, t)
    else
      var f := LastFetched(cam, answer, n + |polled|, t, files, saveDir);
      (if f.0.Ok? then Ok(true) else Err(f.0.error), f.1, polled + f.2, t)
  }

  /** Once the wait returned True, the session goes on with download_last
      from the last poll's clock reading and the next request number. */
  lemma AfterCaptureWhenReady(cam: GoPro, answer: (string, nat) -> Exchange, n: nat, t0: int,
                              files: map<string, seq<byte>>, poll: nat, timeout: int, saveDir: string)
    requires poll > 0
    requires PollFrom(answer, ListUrl(cam), n, poll, timeout, 0).0 == Ok(true)
    ensures var w := PollFrom(answer, ListUrl(cam), n, poll, timeout, 0);
      var f := LastFetched(cam, answer, n + w.1, t0 + (w.1 - 1) * poll, files, saveDir);
      var a := AfterCapture(cam, answer, n, t0, files, poll, timeout, saveDir);
      && a.0 == (if f.0.Ok? then Ok(true) else Err(f.0.error))
      && a.1 == f.1
      && a.2 == PollRequests(ListUrl(cam), t0, poll, w.1) + f.2
  {
  }

  /** What main() does after its debug block, when its first request is the
      session's request number n and the clock starts at t0: the result (the
      wait's verdict once the download went through, or the first
      exception), the files, the requests sent and the final clock reading. */
  function Session(cam: GoPro, answer: (string, nat) -> Exchange, n: nat, t0: int,
                   files: map<string, seq<byte>>, poll: nat, timeout: int, saveDir: string)
    : (r: (Result<bool>, map<string, seq<byte>>, seq<Request>, int))
    requires poll > 0
  {
    var shot := Checked(answer(ShutterUrl(cam), n));
    if shot.Err? then (Err(shot.error), files, [Request(ShutterUrl(cam), t0)], t0)
    else
      var a := AfterCapture(cam, answer, n + 1, t0, files, poll, timeout, saveDir);
      (a.0, a.1, [Request(ShutterUrl(cam), t0)] + a.2, a.3)
  }

  /** A capture that raises ends the session before any poll: one request,
      no time spent, no file written. */
  lemma SessionStopsAtFailedCapture(cam: GoPro, answer: (string, nat) -> Exchange, n: nat, t0: int,
                                    files: map<string, seq<byte>>, poll: nat, timeout: int, saveDir: string)
    requires poll > 0
    requires Checked(answer(ShutterUrl(cam), n)).Err?
    ensures Session(cam, answer, n, t0, files, poll, timeout, saveDir)
         == (Err(Checked(answer(ShutterUrl(cam), n)).error), files, [Request(ShutterUrl(cam), t0)], t0)
  {
  }

  /** After a successful capture, the wait polls the listing URL once per
      interval, starting at once; the clock ends at the last poll. */
  lemma SessionPollsAfterCapture(cam: GoPro, answer: (string, nat) -> Exchange, n: nat, t0: int,
                                 files: map<string, seq<byte>>, poll: nat, timeout: int, saveDir: string)
    requires poll > 0
    requires Checked(answer(ShutterUrl(cam), n)).Ok?
    ensures var s := Session(cam, answer, n, t0, files, poll, timeout, saveDir);
      var m := PollFrom(answer, ListUrl(cam), n + 1, poll, timeout, 0).1;
      && 1 + m <= |s.2|
      && s.2[0] == Request(ShutterUrl(cam), t0)
      && (forall j :: 0 <= j < m ==> s.2[1 + j] == Request(ListUrl(cam), t0 + j * poll))
      && s.3 == t0 + (m - 1) * poll
  {
    var s := Session(cam, answer, n, t0, files, poll, timeout, saveDir);
    var w := PollFrom(answer, ListUrl(cam), n + 1, poll, timeout, 0);
    var polled := [Request(ShutterUrl(cam), t0)] + PollRequests(ListUrl(cam), t0, poll, w.1);
    PollRequestsAt(ListUrl(cam), t0, poll, w.1);
    assert s.2[..|polled|] == polled;
  }

  /** download_last runs only when the wait returned True: otherwise the
      session ends with the wait's verdict, after the polls, with the files
      untouched. */
  lemma SessionDownloadsOnlyWhenReady(cam: GoPro, answer: (string, nat) -> Exchange, n: nat, t0: int,
                                      files: map<string, seq<byte>>, poll: nat, timeout: int, saveDir: string)
    requires poll > 0
    requires Checked(answer(ShutterUrl(cam), n)).Ok?
    requires PollFrom(answer, ListUrl(cam), n + 1, poll, timeout, 0).0 != Ok(true)
    ensures var s := Session(cam, answer, n, t0, files, poll, timeout, saveDir);
      var w := PollFrom(answer, ListUrl(cam), n + 1, poll, timeout, 0);
      s.0 == w.0 && s.1 == files && |s.2| == 1 + w.1
  {
  }

  /** The files change only in a session whose capture succeeded, whose
      wait returned True and whose download went through. */
  lemma SessionWritesOnlyWhenReady(cam: GoPro, answer: (string, nat) -> Exchange, n: nat, t0: int,
                                   files: map<string, seq<byte>>, poll: nat, timeout: int, saveDir: string)
    requires poll > 0
    ensures var s := Session(cam, answer, n, t0, files, poll, timeout, saveDir);
      s.1 != files ==>
        && Checked(answer(ShutterUrl(cam), n)).Ok?
        && PollFrom(answer, ListUrl(cam), n + 1, poll, timeout, 0).0 == Ok(true)
        && s.0 == Ok(true)
  {
  }

  /** A camera that answers every request with status 200, the body [7] and
      a listing of one group, "100GOPRO", holding two files. */
  function ReadyCamera(first: MediaFile, second: MediaFile): (string, nat) -> Exchange
  {
    (url: string, k: nat) => Reply(Response(200, [7], JsonObject(Some([MediaGroup("100GOPRO", [first, second])]))))
  }

  /** download_last against that camera saves the newer file. */
  lemma ReadyCameraFetchesNewer(older: MediaFile, newer: MediaFile, cam: GoPro, n: nat, at: int,
                                files: map<string, seq<byte>>, saveDir: string)
    requires older.cre < newer.cre && '/' !in newer.n
    ensures var f := LastFetched(cam, ReadyCamera(older, newer), n, at, files, saveDir);
      && f.0 == Ok(())
      && f.1 == files[saveDir + "/" + newer.n := [7]]
      && |f.2| == 2
  {
    var answer := ReadyCamera(older, newer);
    assert ListingOf(answer(ListUrl(cam), n)).value.fs == [older, newer];
    assert Selection.IsLastMaximum([older, newer], 1);
    LastFetchedSavesNewest(cam, answer, n, at, files, saveDir, 1);
  }

  /** A whole session against a camera that is ready at once: one poll,
      then the newer file is saved under the save directory, with no time
      spent. */
  lemma ReadyCameraSavesNewer(older: MediaFile, newer: MediaFile, cam: GoPro, n: nat, t0: int,
                              files: map<string, seq<byte>>, poll: nat, timeout: int, saveDir: string)
    requires poll > 0
    requires older.cre < newer.cre && '/' !in newer.n
    ensures var s := Session(cam, ReadyCamera(older, newer), n, t0, files, poll, timeout, saveDir);
      && s.0 == Ok(true)
      && s.1 == files[saveDir + "/" + newer.n := [7]]
      && |s.2| == 4
      && s.3 == t0
  {
    var answer := ReadyCamera(older, newer);
    assert PollFrom(answer, ListUrl(cam), n + 1, poll, timeout, 0) == (Ok(true), 1) by {
      PollDecidedAt(answer, ListUrl(cam), n + 1, poll, timeout, 0, 0);
    }
    ReadyCameraFetchesNewer(older, newer, cam, n + 2, t0, files, saveDir);
    AfterCaptureWhenReady(cam, answer, n + 1, t0, files, poll, timeout, saveDir);
  }

  /** wait, then download_last when the wait returned True. */
  method WaitThenFetch(cam: GoPro, net: Network, clock: Clock, store: FileStore,
                       poll: nat, timeout: int, saveDir: string) returns (r: Result<bool>)
    requires poll > 0
    modifies net, clock, store
    ensures var a := AfterCapture(cam, net.answer, |old(net.requests)|, old(clock.now), old(store.files),
                                  poll, timeout, saveDir);
      && r == a.0
      && store.files == a.1
      && net.requests == old(net.requests) + a.2
      && clock.now == a.3
  {
    ghost var before := net.requests;
    var ready := Wait(cam, net, clock, poll, timeout);
    if ready != Ok(true) {
      return ready;
    }
    ghost var mid := net.requests;
    var done := DownloadLast(cam, net, store, clock, saveDir);
    assert net.requests == before + (mid[|before|..] + net.requests[|mid|..]);
    r := if done.Ok? then Ok(true) else Err(done.error);
  }

  /** The sequence main() runs after its debug block: capture_photo, wait,
      and download_last when the wait returned True. */
  method CaptureAndFetch(cam: GoPro, net: Network, clock: Clock, store: FileStore,
                         poll: nat, timeout: int, saveDir: string) returns (r: Result<bool>)
    requires poll > 0
    modifies net, clock, store
    ensures var s := Session(cam, net.answer, |old(net.requests)|, old(clock.now), old(store.files),
                             poll, timeout, saveDir);
      && r == s.0
      && store.files == s.1
      && net.requests == old(net.requests) + s.2
      && clock.now == s.3
  {
    ghost var before, t0, files := net.requests, clock.now, store.files;
    var shot := CapturePhoto(cam, net, clock);
    if shot.Err? {
      SessionStopsAtFailedCapture(cam, net.answer, |before|, t0, files, poll, timeout, saveDir);
      return Err(shot.error);
    }
    ghost var shutter := net.requests;
    assert |shutter| == |before| + 1;
    r := WaitThenFetch(cam, net, clock, store, poll, timeout, saveDir);
    assert net.requests == before + (shutter[|before|..] + net.requests[|shutter|..]);
  }

  /** main() with its defaults, after its debug block: the factory
      address, polling every half second for at most five seconds, saving
      under ./photos. The files change only when the whole sequence went
      through. */
  method RunMain(net: Network, clock: Clock, store: FileStore) returns (r: Result<bool>)
    modifies net, clock, store
    ensures var s := Session(MainGoPro(), net.answer, |old(net.requests)|, old(clock.now), old(store.files),
                             DefaultPoll, DefaultTimeout, "./photos");
      && r == s.0
      && store.files == s.1
      && net.requests == old(net.requests) + s.2
      && clock.now == s.3
    ensures store.files != old(store.files) ==> r == Ok(true)
  {
    SessionWritesOnlyWhenReady(MainGoPro(), net.answer, |net.requests|, clock.now, store.files,
                               DefaultPoll, DefaultTimeout, "./photos");
    r := CaptureAndFetch(MainGoPro(), net, clock, store, DefaultPoll, DefaultTimeout, "./photos");
  }
}
