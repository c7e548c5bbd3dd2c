/** The server of src/server/index.ts: the file lookup and Content-Type choice of its `fetch`
    handler, and the delegation of WebSocket events to its one WebSocketManager. */
module Server {
  import opened Types
  import opened Transport
  import opened Http
  import Relay
  import opened Manager

  /** The directories searched, in order. */
  function Candidates(pathname: string): seq<string>
  {
    ["./dist" + pathname, "./public" + pathname, "./data" + pathname]
  }

  /** The first candidate that is an existing file, if any. */
  function FirstExisting(candidates: seq<string>, isFile: string -> bool): (r: Option<string>)
    ensures r.Some? ==> r.value in candidates && isFile(r.value)
    ensures r.Some? ==>
      exists k :: 0 <= k < |candidates| && candidates[k] == r.value && (forall j :: 0 <= j < k ==> !isFile(candidates[j]))
    ensures r.None? <==> forall c :: c in candidates ==> !isFile(c)
  {
    if candidates == [] then None
    else if isFile(candidates[0]) then Some(candidates[0])
    else FirstExisting(candidates[1..], isFile)
  }

  /** The handler's `file` variable after its three existence checks: the dist file, replaced by
      the public one if missing, replaced in turn by the data one if that is missing too. */
  function Lookup(pathname: string, isFile: string -> bool): (r: string)
    ensures r in Candidates(pathname)
  {
    var inDist := "./dist" + pathname;
    var chosen := if isFile(inDist) then inDist else "./public" + pathname;
    if isFile(chosen) then chosen else "./data" + pathname
  }

  /** The lookup serves the first of dist, public and data that has the file, or nothing. */
  lemma LookupFindsFirst(pathname: string, isFile: string -> bool)
    ensures (if isFile(Lookup(pathname, isFile)) then Some(Lookup(pathname, isFile)) else None)
      == FirstExisting(Candidates(pathname), isFile)
  {
    var c := Candidates(pathname);
    assert c[1..][1..][1..] == [];
  }

  /** The Content-Type for an extension; "application/octet-stream" for any other. */
  function MediaType(ext: string): (r: string)
    ensures r == "application/octet-stream" <==> ext !in ["html", "css", "js", "json", "png", "jpg", "jpeg", "svg"]
  {
    if ext == "html" then "text/html"
    else if ext == "css" then "text/css"
    else if ext == "js" then "application/javascript"
    else if ext == "json" then "application/json"
    else if ext == "png" then "image/png"
    else if ext == "jpg" || ext == "jpeg" then "image/jpeg"
    else if ext == "svg" then "image/svg+xml"
    else "application/octet-stream"
  }

  /** The Content-Type is chosen by the text after the last dot of the URL path. */
  function ContentType(pathname: string): (r: string)
    ensures '.' !in pathname ==> r == MediaType(pathname)
  {
    if '.' in pathname then MediaType(Extension(pathname))
    else ExtensionWithoutDot(pathname); MediaType(Extension(pathname))
  }

  /** The `fetch` handler: "/ws" is never looked up as a file. */
  function Fetch(pathname: string, isFile: string -> bool): (r: Reply)
    ensures pathname == "/ws" ==> r == Reply(true, Status426)
    ensures pathname != "/ws" ==> !r.upgradeAttempted
    ensures r.response.body.FileBody? ==>
      && pathname != "/ws"
      && Some(r.response.body.path) == FirstExisting(Candidates(pathname), isFile)
      && r.response.contentType == Some(ContentType(pathname))
    ensures pathname != "/ws" && FirstExisting(Candidates(pathname), isFile).None? ==>
      r == Reply(false, NotFound)
    ensures pathname != "/ws" && FirstExisting(Candidates(pathname), isFile).Some? ==>
      r == Reply(false, Response(200, FileBody(FirstExisting(Candidates(pathname), isFile).value),
                                 Some(ContentType(pathname))))
  {
    if pathname == "/ws" then Reply(true, Status426)
    else
      var file := Lookup(pathname, isFile);
      LookupFindsFirst(pathname, isFile);
      if isFile(file) then Reply(false, Response(200, FileBody(file), Some(ContentType(pathname))))
      else Reply(false, NotFound)
  }

  /** A path ending in a dot-free extension gets that extension's type, whatever precedes it. */
  lemma ContentTypeByExtension(prefix: string, ext: string)
    requires '.' !in ext
    ensures ContentType(prefix + "." + ext) == MediaType(ext)
  {
    ExtensionAfterLastDot(prefix, ext);
  }

  /** Both "jpg" and "jpeg" are served as JPEG images. */
  lemma JpegAliases(prefix: string)
    ensures ContentType(prefix + ".jpg") == "image/jpeg"
    ensures ContentType(prefix + ".jpeg") == "image/jpeg"
  {
    assert Extension(prefix + ".jpg") == "jpg" by {
      assert prefix + ".jpg" == prefix + "." + "jpg";
      ExtensionAfterLastDot(prefix, "jpg");
    }
    assert Extension(prefix + ".jpeg") == "jpeg" by {
      assert prefix + ".jpeg" == prefix + "." + "jpeg";
      ExtensionAfterLastDot(prefix, "jpeg");
    }
  }

  /** A URL path without a dot is served as "application/octet-stream". */
  lemma NoDotIsOctetStream(pathname: string)
    requires |pathname| > 0 && pathname[0] == '/' && '.' !in pathname
    ensures ContentType(pathname) == "application/octet-stream"
  {
    ExtensionWithoutDot(pathname);
    assert ContentType(pathname) == MediaType(pathname);
    var known := ["html", "css", "js", "json", "png", "jpg", "jpeg", "svg"];
    assert forall k :: 0 <= k < |known| ==> known[k][0] != '/';
    assert pathname !in known;
  }

  /** The server's WebSocket handlers, all delegating to one manager made at start-up. */
  class RelayServer {
    const socketManager: WebSocketManager

    constructor ()
      ensures fresh(socketManager)
      ensures socketManager.Current() == Relay.Initial() && socketManager.outbox == []
    {
      socketManager := new WebSocketManager();
    }

    /** Opening a connection registers nothing. */
    method Open(ws: Conn)
      ensures unchanged(socketManager)
    {
    }

    method Message(ws: Conn, data: Frame, parsed: Option<Message>, open: set<Conn>) returns (threw: bool)
      modifies socketManager
      ensures threw <==> parsed.None?
      ensures threw ==> socketManager.Current() == old(socketManager.Current())
      ensures threw ==> socketManager.outbox == old(socketManager.outbox)
      ensures !threw ==>
        socketManager.Current() == Relay.OnMessage(old(socketManager.Current()), ws, data, parsed, open).step.state
      ensures !threw ==>
        socketManager.outbox
          == old(socketManager.outbox) + Relay.OnMessage(old(socketManager.Current()), ws, data, parsed, open).step.effects
    {
      threw := socketManager.OnMessage(ws, data, parsed, open);
    }

    method Close(ws: Conn)
      modifies socketManager
      ensures socketManager.Current() == Relay.OnClose(old(socketManager.Current()), ws)
      ensures socketManager.outbox == old(socketManager.outbox)
    {
      socketManager.OnClose(ws);
    }
  }
}
