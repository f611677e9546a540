/** The world the client acts on: the network (the camera behind it), the
    wall clock and the local file system. Each is an object whose state the
    client's operations change. */
module Host {
  import opened Api

  /** One GET request: the URL, and the clock reading when it was sent. */
  datatype Request = Request(url: string, at: int)

  /** The network as the client sees it. `answer(url, n)` is what the
      camera (or the transport) answers to the session's n-th request, made
      to `url`; `requests` records every request sent, in order. */
  class Network {
    const answer: (string, nat) -> Exchange
    var requests: seq<Request>

    constructor (answer: (string, nat) -> Exchange)
      ensures this.answer == answer && requests == []
    {
      this.answer := answer;
      requests := [];
    }

    /** requests.get(url) */
    method Get(url: string, at: int) returns (x: Exchange)
      modifies this
      ensures requests == old(requests) + [Request(url, at)]
      ensures x == answer(url, |old(requests)|)
    {
      x := answer(url, |requests|);
      requests := requests + [Request(url, at)];
    }
  }

  /** time.time() in integer ticks; requests take no time, only sleeping
      moves the clock. */
  class Clock {
    var now: int

    constructor (start: int)
      ensures now == start
    {
      now := start;
    }

    /** time.sleep(d) */
    method Sleep(d: nat)
      modifies this
      ensures now == old(now) + d
    {
      now := now + d;
    }
  }

  /** The local file system, as a map from path to contents. */
  class FileStore {
    var files: map<string, seq<byte>>

    constructor (files: map<string, seq<byte>>)
      ensures this.files == files
    {
      this.files := files;
    }

    /** open(path, 'wb').write(data): creates or overwrites the file. */
    method Write(path: string, data: seq<byte>)
      modifies this
      ensures files == old(files)[path := data]
    {
      files := files[path := data];
    }
  }
}
