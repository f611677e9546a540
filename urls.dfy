/** The two validated models of capture_photo.py, `Media` and `GoPro`,
    and every URL the client builds. */
module Urls {
  import opened Api

  const HttpPrefix: string := "http://"

  /** The factory address of the camera's access point. */
  const DefaultIp: string := "10.5.5.9:8080"

  /** The field validator both models attach to their URL field. */
  function ValidateHttpUrl(v: string): (r: Result<string>)
    ensures r.Ok? <==> HttpPrefix <= v
    ensures r.Ok? ==> r.value == v
    ensures r.Err? ==> r.error == ValidationError
  {
    if HttpPrefix <= v then Ok(v) else Err(ValidationError)
  }

  /** For a URL `scheme://rest` whose scheme holds no colon, the validator
      accepts the URL exactly when the scheme is "http". */
  lemma {:induction false} SchemeDecidesValidation(scheme: string, rest: string)
    requires ':' !in scheme
    ensures ValidateHttpUrl(scheme + "://" + rest).Ok? <==> scheme == "http"
  {
    var u := scheme + "://" + rest;
    if scheme == "http" {
      assert u[..7] == HttpPrefix;
    } else if |scheme| < 4 {
      // the colon comes before the prefix's
      assert u[|scheme|] == ':' != HttpPrefix[|scheme|];
    } else if |scheme| == 4 {
      assert u[..4] == scheme != HttpPrefix[..4];
    } else {
      // the prefix's colon falls inside the scheme
      assert u[4] == scheme[4] != HttpPrefix[4];
    }
  }

  /** "https" and "ftp" URLs are refused with a validation error. */
  lemma OtherSchemesRejected(rest: string)
    ensures ValidateHttpUrl("https://" + rest) == Err(ValidationError)
    ensures ValidateHttpUrl("ftp://" + rest) == Err(ValidationError)
  {
    assert "https://" + rest == "https" + "://" + rest;
    assert "ftp://" + rest == "ftp" + "://" + rest;
    SchemeDecidesValidation("https", rest);
    SchemeDecidesValidation("ftp", rest);
  }

  // ---------------------------------------------------------------- Media

  /** A download task: where the file lives and where to save it. */
  datatype Media = Media(url: string, saveDir: string)

  /** Constructing a `Media`: the URL is validated, the directory is kept. */
  function NewMedia(url: string, saveDir: string): (r: Result<Media>)
    ensures r.Ok? <==> HttpPrefix <= url
    ensures r.Ok? ==> r.value.url == url && r.value.saveDir == saveDir
    ensures r.Err? ==> r.error == ValidationError
  {
    match ValidateHttpUrl(url)
    case Ok(u) => Ok(Media(u, saveDir))
    case Err(e) => Err(e)
  }

  /** The last path segment of a URL: everything after its final '/'. */
  function FileName(url: string): string
  {
    if url == [] || url[|url| - 1] == '/' then []
    else FileName(url[..|url| - 1]) + [url[|url| - 1]]
  }

  /** The file name is the URL's last segment: it holds no '/', ends the
      URL, and is preceded by a '/' unless it is the whole URL. */
  lemma {:induction false} FileNameIsLastSegment(url: string)
    ensures '/' !in FileName(url)
    ensures |FileName(url)| <= |url|
    ensures url[|url| - |FileName(url)|..] == FileName(url)
    ensures |FileName(url)| < |url| ==> url[|url| - |FileName(url)| - 1] == '/'
  {
    if url != [] && url[|url| - 1] != '/' {
      var init, c := url[..|url| - 1], url[|url| - 1];
      FileNameIsLastSegment(init);
      var front := FileName(init);
      var cut := |init| - |front|;
      assert FileName(url) == front + [c];
      assert init[cut..] == url[cut..|init|];
      assert url[cut..] == url[cut..|init|] + [c];
      if |front| < |init| {
        assert url[cut - 1] == init[cut - 1];
      }
    }
  }

  /** Where a download of `media` is written. */
  function Destination(media: Media): string
  {
    media.saveDir + "/" + FileName(media.url)
  }

  // ---------------------------------------------------------------- GoPro

  /** The camera's session configuration. */
  datatype GoPro = GoPro(ip: string, baseUrl: string, debug: bool)

  function BaseUrl(ip: string): string
  {
    HttpPrefix + ip + "/gopro"
  }

  /** Constructing a `GoPro` with the evidently intended default: the base
      URL follows the given address. An explicit base URL is validated; the
      default one is not (field validators do not run on defaults), and does
      not need to be. */
  function NewGoPro(ip: string, baseUrl: Option<string>, debug: bool): (r: Result<GoPro>)
    ensures r.Err? <==> baseUrl.Some? && !(HttpPrefix <= baseUrl.value)
    ensures r.Err? ==> r.error == ValidationError
    ensures r.Ok? ==> HttpPrefix <= r.value.baseUrl && r.value.ip == ip && r.value.debug == debug
    ensures r.Ok? && baseUrl.Some? ==> r.value.baseUrl == baseUrl.value
    ensures r.Ok? && baseUrl.None? ==> r.value.baseUrl == BaseUrl(ip)
  {
    match baseUrl
    case None =>
      assert BaseUrl(ip)[..7] == HttpPrefix;
      Ok(GoPro(ip, BaseUrl(ip), debug))
    case Some(u) =>
      match ValidateHttpUrl(u)
      case Ok(v) => Ok(GoPro(ip, v, debug))
      case Err(e) => Err(e)
  }

  /** Constructing a `GoPro` as the class is written: the default base URL is
      computed once, when the class is defined, from the default address. */
  function NewGoProAsWritten(ip: string, baseUrl: Option<string>, debug: bool): (r: Result<GoPro>)
    ensures r.Ok? && baseUrl.None? ==> r.value.baseUrl == BaseUrl(DefaultIp)
    ensures r.Err? <==> baseUrl.Some? && !(HttpPrefix <= baseUrl.value)
  {
    match baseUrl
    case None => Ok(GoPro(ip, BaseUrl(DefaultIp), debug))
    case Some(u) =>
      match ValidateHttpUrl(u)
      case Ok(v) => Ok(GoPro(ip, v, debug))
      case Err(e) => Err(e)
  }

  /** The configuration main() builds: GoPro(debug = True). */
  function MainGoPro(): (cam: GoPro)
    ensures cam.ip == DefaultIp && cam.baseUrl == "http://10.5.5.9:8080/gopro" && cam.debug
  {
    NewGoPro(DefaultIp, None, true).value
  }

  // ---------------------------------------------------------------- URLs

  function StateUrl(cam: GoPro): string { cam.baseUrl + "/camera/state" }

  function ShutterUrl(cam: GoPro): string { cam.baseUrl + "/camera/shutter/start" }

  function ListUrl(cam: GoPro): string { cam.baseUrl + "/media/list" }

  /** A media file's URL, built from the address and not from the base URL. */
  function MediaUrl(ip: string, d: string, n: string): string
  {
    HttpPrefix + ip + "/videos/DCIM/" + d + "/" + n
  }

  /** Every endpoint of a configuration with an http base URL is an http URL
      that extends the base URL. */
  lemma EndpointsExtendBaseUrl(cam: GoPro)
    requires HttpPrefix <= cam.baseUrl
    ensures cam.baseUrl + "/" <= StateUrl(cam) && ValidateHttpUrl(StateUrl(cam)).Ok?
    ensures cam.baseUrl + "/" <= ShutterUrl(cam) && ValidateHttpUrl(ShutterUrl(cam)).Ok?
    ensures cam.baseUrl + "/" <= ListUrl(cam) && ValidateHttpUrl(ListUrl(cam)).Ok?
  {
    var b := cam.baseUrl;
    assert StateUrl(cam) == (b + "/") + "camera/state";
    assert ShutterUrl(cam) == (b + "/") + "camera/shutter/start";
    assert ListUrl(cam) == (b + "/") + "media/list";
    assert StateUrl(cam)[..7] == b[..7];
    assert ShutterUrl(cam)[..7] == b[..7];
    assert ListUrl(cam)[..7] == b[..7];
  }

  /** Every media URL passes the `Media` validator. */
  lemma MediaUrlIsValid(ip: string, d: string, n: string, saveDir: string)
    ensures NewMedia(MediaUrl(ip, d, n), saveDir) == Ok(Media(MediaUrl(ip, d, n), saveDir))
  {
    assert MediaUrl(ip, d, n)[..7] == HttpPrefix;
  }

  /** A media URL names its file last, so a download of it is saved under the
      file's own name. */
  lemma {:induction false} FileNameOfMediaUrl(ip: string, d: string, n: string)
    requires '/' !in n
    ensures FileName(MediaUrl(ip, d, n)) == n
  {
    var dir := HttpPrefix + ip + "/videos/DCIM/" + d + "/";
    assert MediaUrl(ip, d, n) == dir + n;
    if n == [] {
      assert (dir + n)[|dir + n| - 1] == '/';
    } else {
      var init := n[..|n| - 1];
      assert '/' !in init by {
        forall i | 0 <= i < |init| ensures init[i] != '/' { assert init[i] == n[i]; }
      }
      assert (dir + n)[..|dir + n| - 1] == MediaUrl(ip, d, init);
      FileNameOfMediaUrl(ip, d, init);
      assert init + [n[|n| - 1]] == n;
    }
  }

  /** Media URLs and the base URL of a configuration built from the same
      address name the same host, but a media URL is not under the base URL:
      "/videos" sits beside "/gopro". */
  lemma MediaUrlBesideBaseUrl(ip: string, d: string, n: string)
    ensures HttpPrefix + ip + "/" <= MediaUrl(ip, d, n)
    ensures HttpPrefix + ip + "/" <= BaseUrl(ip)
    ensures !(BaseUrl(ip) <= MediaUrl(ip, d, n))
  {
    var host := HttpPrefix + ip + "/";
    assert MediaUrl(ip, d, n) == host + "videos/DCIM/" + d + "/" + n;
    assert BaseUrl(ip) == host + "gopro";
    assert MediaUrl(ip, d, n)[|host|] == 'v';
    assert BaseUrl(ip)[|host|] == 'g';
  }

  /** As the source intends, the endpoints and the media files of a
      configuration built without an explicit base URL live on one host. */
  lemma {:induction false} OneHostPerSession(ip: string, debug: bool, d: string, n: string)
    ensures NewGoPro(ip, None, debug).Ok?
    ensures var cam := NewGoPro(ip, None, debug).value;
      var host := HttpPrefix + cam.ip + "/";
      host <= ListUrl(cam) && host <= ShutterUrl(cam) && host <= StateUrl(cam) &&
      host <= MediaUrl(cam.ip, d, n)
  {
    var cam := NewGoPro(ip, None, debug).value;
    var host := HttpPrefix + ip + "/";
    MediaUrlBesideBaseUrl(ip, d, n);
    EndpointsExtendBaseUrl(cam);
    assert cam.baseUrl + "/" == host + "gopro/";
  }

  /** As the class is written, a camera at another address still has its
      endpoints on the default address, while its media URLs use the new one. */
  lemma EndpointsIgnoreIpAsWritten()
    ensures var cam := NewGoProAsWritten("192.168.0.10", None, false).value;
      !(HttpPrefix + cam.ip + "/" <= ListUrl(cam)) &&
      HttpPrefix + cam.ip + "/" <= MediaUrl(cam.ip, "100GOPRO", "GOPR0001.JPG")
  {
    var cam := NewGoProAsWritten("192.168.0.10", None, false).value;
    var host := HttpPrefix + cam.ip + "/";
    assert host[8] == '9';
    assert ListUrl(cam)[8] == '0';
    MediaUrlBesideBaseUrl(cam.ip, "100GOPRO", "GOPR0001.JPG");
  }
}
