/** The earlier server in index.ts: two lists of connections, `admins` and `overlays`, filled by
    plain-text "admin"/"overlay" messages, with every other message relayed between them; and a
    `fetch` handler serving files from ./src. */
module Legacy {
  import opened Types
  import opened Transport
  import opened Http

  /** The two module-level lists. */
  datatype Lists = Lists(admins: seq<Conn>, overlays: seq<Conn>)

  /** The next lists and the effects, in order, of one handler call. */
  datatype Step = Step(lists: Lists, effects: seq<Effect>)

  predicate NoDuplicates(s: seq<Conn>)
  {
    forall i, j :: 0 <= i < j < |s| ==> s[i] != s[j]
  }

  /** What the handlers keep true: neither list holds a connection twice. */
  predicate Valid(l: Lists)
  {
    NoDuplicates(l.admins) && NoDuplicates(l.overlays)
  }

  /** `push` guarded by `indexOf(ws) === -1`. */
  function AddOnce(list: seq<Conn>, ws: Conn): (r: seq<Conn>)
    ensures ws in r && list <= r && |r| <= |list| + 1
  {
    if IndexOf(list, ws) == -1 then list + [ws] else list
  }

  /** `splice(indexOf(ws), 1)` when `ws` is present: the first occurrence goes. */
  function RemoveFirst(list: seq<Conn>, ws: Conn): (r: seq<Conn>)
    ensures |r| == if ws in list then |list| - 1 else |list|
    ensures multiset(r) <= multiset(list)
  {
    var i := IndexOf(list, ws);
    if i == -1 then list
    else
      assert list == list[..i] + [list[i]] + list[i + 1..];
      list[..i] + list[i + 1..]
  }

  /** The `message` handler. */
  function OnMessage(l: Lists, ws: Conn, data: Frame, open: set<Conn>): (r: Step)
    ensures l.admins <= r.lists.admins && l.overlays <= r.lists.overlays
    ensures data == Text("admin") || data == Text("overlay") ==> r.effects == []
  {
    if data.Text? && data.text == "admin" then Step(l.(admins := AddOnce(l.admins, ws)), [])
    else if data.Text? && data.text == "overlay" then Step(l.(overlays := AddOnce(l.overlays, ws)), [])
    else if IndexOf(l.admins, ws) != -1 then Step(l, SendToOpen(l.overlays, open, Forwarded(data)))
    else if IndexOf(l.overlays, ws) != -1 then Step(l, SendToOpen(l.admins, open, Forwarded(data)))
    else Step(l, [])
  }

  /** The `close` handler: each list loses its entry for `ws`. */
  function OnClose(l: Lists, ws: Conn): (r: Lists)
    ensures |r.admins| <= |l.admins| && |r.overlays| <= |l.overlays|
    ensures multiset(r.admins) <= multiset(l.admins) && multiset(r.overlays) <= multiset(l.overlays)
  {
    Lists(RemoveFirst(l.admins, ws), RemoveFirst(l.overlays, ws))
  }

  /** Registering is idempotent: the connection is in the list afterwards, once, and no other
      entry is added, dropped or moved. */
  lemma AddOnceKeepsUnique(list: seq<Conn>, ws: Conn)
    requires NoDuplicates(list)
    ensures NoDuplicates(AddOnce(list, ws))
    ensures ws in AddOnce(list, ws)
    ensures ws in list ==> AddOnce(list, ws) == list
    ensures ws !in list ==> AddOnce(list, ws) == list + [ws]
  {
  }

  /** With no duplicates, removing the first occurrence removes the connection altogether and
      keeps every other entry. */
  lemma {:induction false} RemoveFirstRemovesAll(list: seq<Conn>, ws: Conn)
    requires NoDuplicates(list)
    ensures NoDuplicates(RemoveFirst(list, ws))
    ensures ws !in RemoveFirst(list, ws)
    ensures forall c :: c != ws ==> (c in RemoveFirst(list, ws) <==> c in list)
    ensures ws !in list ==> RemoveFirst(list, ws) == list
    ensures ws in list ==> |RemoveFirst(list, ws)| == |list| - 1
  {
    var i := IndexOf(list, ws);
    if i != -1 {
      var r := list[..i] + list[i + 1..];
      forall a, b | 0 <= a < b < |r| ensures r[a] != r[b] {
        var a' := if a < i then a else a + 1;
        var b' := if b < i then b else b + 1;
        assert r[a] == list[a'] && r[b] == list[b'];
      }
      forall k | 0 <= k < |r| ensures r[k] != ws {
        var k' := if k < i then k else k + 1;
        assert r[k] == list[k'];
      }
      forall c | c != ws && c in list ensures c in r {
        var k :| 0 <= k < |list| && list[k] == c;
        assert r[if k < i then k else k - 1] == c;
      }
    }
  }

  /** The `message` handler keeps the lists free of duplicates. */
  lemma MessageKeepsValid(l: Lists, ws: Conn, data: Frame, open: set<Conn>)
    requires Valid(l)
    ensures Valid(OnMessage(l, ws, data, open).lists)
  {
    AddOnceKeepsUnique(l.admins, ws);
    AddOnceKeepsUnique(l.overlays, ws);
  }

  /** The `close` handler keeps the lists free of duplicates; the closed connection is in neither
      list afterwards, and every other connection keeps its memberships. */
  lemma CloseRemovesEverywhere(l: Lists, ws: Conn)
    requires Valid(l)
    ensures Valid(OnClose(l, ws))
    ensures ws !in OnClose(l, ws).admins && ws !in OnClose(l, ws).overlays
    ensures forall c :: c != ws ==> (c in OnClose(l, ws).admins <==> c in l.admins)
    ensures forall c :: c != ws ==> (c in OnClose(l, ws).overlays <==> c in l.overlays)
  {
    RemoveFirstRemovesAll(l.admins, ws);
    RemoveFirstRemovesAll(l.overlays, ws);
  }

  /** A registration message changes only its own list and is not relayed. */
  lemma RegistrationNotRelayed(l: Lists, ws: Conn, open: set<Conn>)
    requires Valid(l)
    ensures OnMessage(l, ws, Text("admin"), open) == Step(l.(admins := AddOnce(l.admins, ws)), [])
    ensures OnMessage(l, ws, Text("overlay"), open) == Step(l.(overlays := AddOnce(l.overlays, ws)), [])
    ensures ws in OnMessage(l, ws, Text("admin"), open).lists.admins
    ensures ws in OnMessage(l, ws, Text("overlay"), open).lists.overlays
  {
    AddOnceKeepsUnique(l.admins, ws);
    AddOnceKeepsUnique(l.overlays, ws);
  }

  /** Whether the frame is one of the two registration texts. */
  predicate Registers(data: Frame)
  {
    data.Text? && (data.text == "admin" || data.text == "overlay")
  }

  /** Any other message from an admin (even one also listed as an overlay) goes, as received, to
      every open overlay and to nothing else; the lists stay as they are. */
  lemma AdminMessageToOverlays(l: Lists, ws: Conn, data: Frame, open: set<Conn>)
    requires ws in l.admins && !Registers(data)
    ensures OnMessage(l, ws, data, open).lists == l
    ensures forall e :: e in OnMessage(l, ws, data, open).effects ==>
      e.Send? && e.payload == Forwarded(data) && e.to in open && e.to in l.overlays
    ensures forall t :: t in l.overlays && t in open ==>
      Send(t, Forwarded(data)) in OnMessage(l, ws, data, open).effects
  {
    SendToOpenReaches(l.overlays, open, Forwarded(data));
  }

  /** Any other message from an overlay that is not an admin goes, as received, to every open
      admin and to nothing else; the lists stay as they are. */
  lemma OverlayMessageToAdmins(l: Lists, ws: Conn, data: Frame, open: set<Conn>)
    requires ws !in l.admins && ws in l.overlays && !Registers(data)
    ensures OnMessage(l, ws, data, open).lists == l
    ensures forall e :: e in OnMessage(l, ws, data, open).effects ==>
      e.Send? && e.payload == Forwarded(data) && e.to in open && e.to in l.admins
    ensures forall t :: t in l.admins && t in open ==>
      Send(t, Forwarded(data)) in OnMessage(l, ws, data, open).effects
  {
    SendToOpenReaches(l.admins, open, Forwarded(data));
  }

  /** A message from a connection in neither list is dropped and changes nothing. */
  lemma UnlistedSenderIgnored(l: Lists, ws: Conn, data: Frame, open: set<Conn>)
    requires ws !in l.admins && ws !in l.overlays && !Registers(data)
    ensures OnMessage(l, ws, data, open) == Step(l, [])
  {
  }

  /** The module-level lists and the handlers that update them in place. */
  class Relay {
    var admins: seq<Conn>
    var overlays: seq<Conn>
    var outbox: seq<Effect>

    function Current(): Lists
      reads this`admins, this`overlays
    {
      Lists(admins, overlays)
    }

    ghost predicate Invariant()
      reads this`admins, this`overlays
    {
      Valid(Current())
    }

    constructor ()
      ensures Invariant() && admins == [] && overlays == [] && outbox == []
    {
      admins := [];
      overlays := [];
      outbox := [];
    }

    method Message(ws: Conn, data: Frame, open: set<Conn>)
      requires Invariant()
      modifies this
      ensures Invariant()
      ensures Current() == OnMessage(old(Current()), ws, data, open).lists
      ensures outbox == old(outbox) + OnMessage(old(Current()), ws, data, open).effects
    {
      MessageKeepsValid(Current(), ws, data, open);
      ghost var step := OnMessage(Current(), ws, data, open);
      if data.Text? {
        if data.text == "admin" {
          if IndexOf(admins, ws) == -1 {
            admins := admins + [ws];
          }
          return;
        } else if data.text == "overlay" {
          if IndexOf(overlays, ws) == -1 {
            overlays := overlays + [ws];
          }
          return;
        }
      }
      assert !Registers(data);
      if IndexOf(admins, ws) != -1 {
        assert step == Step(Current(), SendToOpen(overlays, open, Forwarded(data)));
        SendToEachOpen(overlays, open, Forwarded(data));
      } else if IndexOf(overlays, ws) != -1 {
        assert step == Step(Current(), SendToOpen(admins, open, Forwarded(data)));
        SendToEachOpen(admins, open, Forwarded(data));
      } else {
        assert step == Step(Current(), []);
      }
    }

    /** `[admins, overlays].forEach(...)`, unrolled to its two lists. */
    method Close(ws: Conn)
      requires Invariant()
      modifies this
      ensures Invariant()
      ensures Current() == OnClose(old(Current()), ws)
      ensures ws !in admins && ws !in overlays
      ensures outbox == old(outbox)
    {
      CloseRemovesEverywhere(Current(), ws);
      ghost var next := OnClose(Current(), ws);
      var index := IndexOf(admins, ws);
      if index != -1 {
        admins := admins[..index] + admins[index + 1..];
      }
      assert admins == next.admins;
      index := IndexOf(overlays, ws);
      if index != -1 {
        overlays := overlays[..index] + overlays[index + 1..];
      }
      assert overlays == next.overlays;
    }

    /** Sends `p` to each target whose connection is open, in order (the `readyState` check). */
    method SendToEachOpen(targets: seq<Conn>, open: set<Conn>, p: Payload)
      modifies this`outbox
      ensures outbox == old(outbox) + SendToOpen(targets, open, p)
    {
      for i := 0 to |targets|
        invariant outbox == old(outbox) + SendToOpen(targets[..i], open, p)
      {
        if targets[i] in open {
          outbox := outbox + [Send(targets[i], p)];
        }
        assert targets[..i + 1] == targets[..i] + [targets[i]];
        SendToOpenSnoc(targets[..i], targets[i], open, p);
      }
      assert targets[..|targets|] == targets;
    }
  }

  // ---------------------------------------------------------------------------------------
  // The `fetch` handler

  /** "/" is served as ./src/index.html, any other path p as ./src followed by p. */
  function FilePath(pathname: string): (r: string)
    ensures |r| >= 5 && r[..5] == "./src"
    ensures pathname != "/" ==> r[5..] == pathname
  {
    "./src" + (if pathname == "/" then "/index.html" else pathname)
  }

  /** The Content-Type set for the extension of the file path, if one is set at all. */
  function ContentType(filePath: string): (r: Option<string>)
    ensures r == None || r == Some("text/html") || r == Some("application/javascript") || r == Some("text/css")
  {
    var ext := Extension(filePath);
    if ext == "html" then Some("text/html")
    else if ext == "js" then Some("application/javascript")
    else if ext == "css" then Some("text/css")
    else None
  }

  function Fetch(pathname: string, isFile: string -> bool): (r: Reply)
    ensures pathname == "/ws" ==> r == Reply(true, Status426)
    ensures pathname != "/ws" ==> !r.upgradeAttempted
    ensures r.response.body.FileBody? ==>
      pathname != "/ws" && r.response.body.path == FilePath(pathname) && isFile(FilePath(pathname))
    ensures pathname != "/ws" && !isFile(FilePath(pathname)) ==> r == Reply(false, NotFound)
    ensures pathname != "/ws" && isFile(FilePath(pathname)) ==>
      r == Reply(false, Response(200, FileBody(FilePath(pathname)), ContentType(FilePath(pathname))))
  {
    if pathname == "/ws" then Reply(true, Status426)
    else
      var filePath := FilePath(pathname);
      if isFile(filePath) then Reply(false, Response(200, FileBody(filePath), ContentType(filePath)))
      else Reply(false, NotFound)
  }

  /** The root is the HTML index page under ./src. */
  lemma RootIsIndexPage(isFile: string -> bool)
    requires isFile("./src/index.html")
    ensures Fetch("/", isFile) == Reply(false, Response(200, FileBody("./src/index.html"), Some("text/html")))
  {
    assert FilePath("/") == "./src/index.html";
    assert "./src/index.html" == "./src/index" + "." + "html";
    ExtensionAfterLastDot("./src/index", "html");
  }

  /** Only html, js and css files get a Content-Type, chosen by the file's extension. */
  lemma ContentTypeByExtension(prefix: string, ext: string)
    requires '.' !in ext
    ensures ContentType(prefix + "." + ext) ==
      if ext == "html" then Some("text/html")
      else if ext == "js" then Some("application/javascript")
      else if ext == "css" then Some("text/css")
      else None
  {
    ExtensionAfterLastDot(prefix, ext);
  }
}
