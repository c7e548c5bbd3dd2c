/** What the relay of src/server/WebSocketManager.ts promises, proved about the steps in
    module Relay. */
module RelayProperties {
  import opened Types
  import opened Transport
  import opened Relay

  /** The catalog of two admin lists one after the other is their catalogs one after the other. */
  lemma {:induction false} CatalogConcat(a: seq<AdminClient>, b: seq<AdminClient>)
    ensures Catalog(a + b) == Catalog(a) + Catalog(b)
  {
    if a == [] {
      assert a + b == b;
    } else {
      assert (a + b)[1..] == a[1..] + b;
      CatalogConcat(a[1..], b);
    }
  }

  /** Catalog order is admin order, then publication order: admin k's sources sit, in the order
      it published them, after those of every earlier admin and before those of every later one. */
  lemma {:induction false} CatalogSplit(admins: seq<AdminClient>, k: nat)
    requires k < |admins|
    ensures Catalog(admins) == Catalog(admins[..k]) + admins[k].sources + Catalog(admins[k + 1..])
  {
    var rest := admins[k..];
    assert admins == admins[..k] + rest;
    CatalogConcat(admins[..k], rest);
    assert rest[0] == admins[k] && rest[1..] == admins[k + 1..];
    assert Catalog(rest) == admins[k].sources + Catalog(admins[k + 1..]);
  }

  /** A new admin joins at the end with no sources, so the catalog is unchanged; it is sent the
      current scene and nothing else; the overlay and the scene are untouched. */
  lemma RegisterAdminJoinsLast(st: State, ws: Conn)
    ensures RegisterAdmin(st, ws).state.admins == st.admins + [AdminClient(ws, [])]
    ensures RegisterAdmin(st, ws).state.overlay == st.overlay
    ensures RegisterAdmin(st, ws).state.scene == st.scene
    ensures RegisterAdmin(st, ws).effects == [Send(ws, Envelope(SetScene(st.scene)))]
    ensures Catalog(RegisterAdmin(st, ws).state.admins) == Catalog(st.admins)
  {
    CatalogConcat(st.admins, [AdminClient(ws, [])]);
  }

  /** While an overlay is connected, a second one is closed with code 1000 and the reason
      "An overlay is already connected.", and nothing else happens. */
  lemma SecondOverlayRejected(st: State, ws: Conn)
    requires st.overlay.Some?
    ensures RegisterOverlay(st, ws).state == st
    ensures RegisterOverlay(st, ws).effects == [Close(ws, 1000, "An overlay is already connected.")]
  {
  }

  /** An overlay taking the empty slot is sent one `newSource` per catalogued source, in catalog
      order, then the current scene; then every admin, in registration order, is sent `newOverlay`. */
  lemma OverlayReplay(st: State, ws: Conn)
    requires st.overlay.None?
    ensures RegisterOverlay(st, ws).state == st.(overlay := Some(ws))
    ensures var e := RegisterOverlay(st, ws).effects; var cat := Catalog(st.admins);
      && |e| == |cat| + 1 + |st.admins|
      && (forall k :: 0 <= k < |cat| ==> e[k] == Send(ws, Envelope(NewSource(cat[k]))))
      && e[|cat|] == Send(ws, Envelope(SetScene(st.scene)))
      && (forall j :: 0 <= j < |st.admins| ==>
            e[|cat| + 1 + j] == Send(st.admins[j].socket, Envelope(NewOverlay)))
  {
    var e := RegisterOverlay(st, ws).effects;
    var scene := Send(ws, Envelope(SetScene(st.scene)));
    assert e == SendSources(ws, Catalog(st.admins)) + [scene] + SendAll(Sockets(st.admins), Envelope(NewOverlay));
    ReplayLayout(e, ws, Catalog(st.admins), scene, st.admins);
  }

  /** The layout of the replay sent to a new overlay: sources, then the scene, then the notices. */
  lemma {:induction false} ReplayLayout(e: seq<Effect>, ws: Conn, cat: seq<StreamSource>, scene: Effect, admins: seq<AdminClient>)
    requires e == SendSources(ws, cat) + [scene] + SendAll(Sockets(admins), Envelope(NewOverlay))
    ensures |e| == |cat| + 1 + |admins|
    ensures forall k :: 0 <= k < |cat| ==> e[k] == Send(ws, Envelope(NewSource(cat[k])))
    ensures e[|cat|] == scene
    ensures forall j :: 0 <= j < |admins| ==> e[|cat| + 1 + j] == Send(admins[j].socket, Envelope(NewOverlay))
  {
    var replay := SendSources(ws, cat);
    var notices := SendAll(Sockets(admins), Envelope(NewOverlay));
    SendSourcesAt(ws, cat);
    SocketsAt(admins);
    SendAllAt(Sockets(admins), Envelope(NewOverlay));
    forall k | 0 <= k < |cat| ensures e[k] == Send(ws, Envelope(NewSource(cat[k]))) {
      assert e[k] == replay[k];
    }
    forall j | 0 <= j < |admins| ensures e[|cat| + 1 + j] == Send(admins[j].socket, Envelope(NewOverlay)) {
      assert e[|cat| + 1 + j] == notices[j];
    }
  }

  /** Admin A published X then Y, admin B published Z: a connecting overlay gets X, Y, Z in that
      order, then the scene, and A and B are each told about the new overlay. */
  lemma ReplayExample(a: Conn, b: Conn, x: StreamSource, y: StreamSource, z: StreamSource, o: Conn, s: Scene)
    ensures RegisterOverlay(State([AdminClient(a, [x, y]), AdminClient(b, [z])], None, s), o).effects
      == [Send(o, Envelope(NewSource(x))), Send(o, Envelope(NewSource(y))), Send(o, Envelope(NewSource(z))),
          Send(o, Envelope(SetScene(s))), Send(a, Envelope(NewOverlay)), Send(b, Envelope(NewOverlay))]
  {
    var admins := [AdminClient(a, [x, y]), AdminClient(b, [z])];
    CatalogSplit(admins, 1);
    assert Catalog(admins[..1]) == [x, y] by {
      CatalogConcat(admins[..1][..0], admins[..1][0..]);
    }
    assert Catalog(admins) == [x, y, z];
    OverlayReplay(State(admins, None, s), o);
  }

  /** A `connectClient` naming one of the two roles is consumed: nothing received is passed on. */
  lemma ConnectClientNotForwarded(st: State, ws: Conn, data: Frame, t: ClientType, open: set<Conn>)
    requires !t.Unrecognized?
    ensures OnMessage(st, ws, data, Some(ConnectClient(t)), open).Handled?
    ensures forall e :: e in OnMessage(st, ws, data, Some(ConnectClient(t)), open).step.effects ==>
      !(e.Send? && e.payload.Forwarded?)
  {
    SendSourcesAt(ws, Catalog(st.admins));
    SocketsAt(st.admins);
    SendAllAt(Sockets(st.admins), Envelope(NewOverlay));
  }

  /** A `connectClient` naming any other role is handled like every other message. */
  lemma UnrecognizedClientFallsThrough(st: State, ws: Conn, data: Frame, name: string, open: set<Conn>)
    ensures OnMessage(st, ws, data, Some(ConnectClient(Unrecognized(name))), open)
      == Handled(Forward(st, ws, data, ConnectClient(Unrecognized(name)), open))
  {
  }

  /** Whether `m` is consumed by registration rather than routed. */
  predicate Registers(m: Message)
  {
    m.ConnectClient? && !m.clientType.Unrecognized?
  }

  /** A message from the overlay changes nothing and goes, as received, to every admin whose
      connection is open and to no one else (the overlay is looked for before the admins). */
  lemma OverlayMessageToOpenAdmins(st: State, ws: Conn, data: Frame, m: Message, open: set<Conn>)
    requires st.overlay == Some(ws) && !Registers(m)
    ensures OnMessage(st, ws, data, Some(m), open).Handled?
    ensures OnMessage(st, ws, data, Some(m), open).step.state == st
    ensures forall e :: e in OnMessage(st, ws, data, Some(m), open).step.effects ==>
      e.Send? && e.payload == Forwarded(data) && e.to in open && e.to in Sockets(st.admins)
    ensures forall j :: 0 <= j < |st.admins| && st.admins[j].socket in open ==>
      Send(st.admins[j].socket, Forwarded(data)) in OnMessage(st, ws, data, Some(m), open).step.effects
  {
    var socks := Sockets(st.admins);
    var relayed := SendToOpen(socks, open, Forwarded(data));
    assert OnMessage(st, ws, data, Some(m), open) == Handled(Step(st, relayed));
    SendToOpenReaches(socks, open, Forwarded(data));
    forall j | 0 <= j < |st.admins| && st.admins[j].socket in open
      ensures Send(st.admins[j].socket, Forwarded(data)) in relayed
    {
      SocketsAt(st.admins);
      assert socks[j] == st.admins[j].socket;
    }
  }

  /** A message from an admin (that is not the overlay) first updates the scene (`setScene`) or
      that admin's own source list (`newSource`), leaving every other admin as it was, and then
      goes, as received, to the overlay alone, provided it exists and is open. */
  lemma AdminMessage(st: State, ws: Conn, data: Frame, m: Message, open: set<Conn>)
    requires st.overlay != Some(ws) && AdminIndex(st.admins, ws) >= 0 && !Registers(m)
    ensures OnMessage(st, ws, data, Some(m), open).Handled?
    ensures var i := AdminIndex(st.admins, ws); var next := OnMessage(st, ws, data, Some(m), open).step.state;
      && next.overlay == st.overlay
      && next.scene == (if m.SetScene? then m.scene else st.scene)
      && |next.admins| == |st.admins|
      && Sockets(next.admins) == Sockets(st.admins)
      && (forall j :: 0 <= j < |st.admins| && j != i ==> next.admins[j] == st.admins[j])
      && next.admins[i].sources == st.admins[i].sources + (if m.NewSource? then [m.source] else [])
    ensures OnMessage(st, ws, data, Some(m), open).step.effects
      == if st.overlay.Some? && st.overlay.value in open then [Send(st.overlay.value, Forwarded(data))] else []
  {
    var i := AdminIndex(st.admins, ws);
    var next := ApplyAdminMessage(st, i, m);
    assert OnMessage(st, ws, data, Some(m), open) == Handled(Step(next, ToOverlay(st.overlay, open, data)));
    AdminUpdate(st, i, m);
  }

  /** How an admin's message changes the state: the scene or that admin's own sources, no more. */
  lemma {:induction false} AdminUpdate(st: State, i: nat, m: Message)
    requires i < |st.admins|
    ensures var next := ApplyAdminMessage(st, i, m);
      && next.overlay == st.overlay
      && next.scene == (if m.SetScene? then m.scene else st.scene)
      && |next.admins| == |st.admins|
      && Sockets(next.admins) == Sockets(st.admins)
      && (forall j :: 0 <= j < |st.admins| && j != i ==> next.admins[j] == st.admins[j])
      && next.admins[i].sources == st.admins[i].sources + (if m.NewSource? then [m.source] else [])
  {
    var next := ApplyAdminMessage(st, i, m);
    SocketsAt(st.admins);
    SocketsAt(next.admins);
  }

  /** A source an admin publishes enters the catalog right after that admin's earlier sources. */
  lemma PublishedSourceJoinsCatalog(st: State, ws: Conn, data: Frame, src: StreamSource, open: set<Conn>)
    requires st.overlay != Some(ws) && AdminIndex(st.admins, ws) >= 0
    ensures var i := AdminIndex(st.admins, ws);
      Catalog(OnMessage(st, ws, data, Some(NewSource(src)), open).step.state.admins)
        == Catalog(st.admins[..i]) + st.admins[i].sources + [src] + Catalog(st.admins[i + 1..])
  {
    var i := AdminIndex(st.admins, ws);
    var updated := st.admins[i].(sources := st.admins[i].sources + [src]);
    assert OnMessage(st, ws, data, Some(NewSource(src)), open).step.state.admins == st.admins[i := updated];
    CatalogReplace(st.admins, i, updated);
  }

  /** Replacing admin k changes the catalog only in admin k's stretch of it. */
  lemma {:induction false} CatalogReplace(admins: seq<AdminClient>, k: nat, a: AdminClient)
    requires k < |admins|
    ensures Catalog(admins[k := a]) == Catalog(admins[..k]) + a.sources + Catalog(admins[k + 1..])
  {
    var next := admins[k := a];
    CatalogSplit(next, k);
    assert next[..k] == admins[..k];
    assert next[k + 1..] == admins[k + 1..];
  }

  /** A message from a connection that is neither the overlay nor an admin is dropped. */
  lemma UnregisteredSenderIgnored(st: State, ws: Conn, data: Frame, m: Message, open: set<Conn>)
    requires st.overlay != Some(ws) && AdminIndex(st.admins, ws) == -1 && !Registers(m)
    ensures OnMessage(st, ws, data, Some(m), open) == Handled(Step(st, []))
  {
  }

  /** After an admin sets the scene, a newly registering admin is first sent that scene, and a
      newly registering overlay is sent it right after the replayed catalog. */
  lemma SceneReachesLaterClients(st: State, a: Conn, data: Frame, s: Scene, open: set<Conn>, c: Conn)
    requires st.overlay != Some(a) && AdminIndex(st.admins, a) >= 0
    ensures var next := OnMessage(st, a, data, Some(SetScene(s)), open).step.state;
      && RegisterAdmin(next, c).effects[0] == Send(c, Envelope(SetScene(s)))
      && (next.overlay.None? ==>
            && |Catalog(next.admins)| < |RegisterOverlay(next, c).effects|
            && RegisterOverlay(next, c).effects[|Catalog(next.admins)|] == Send(c, Envelope(SetScene(s))))
  {
    var next := OnMessage(st, a, data, Some(SetScene(s)), open).step.state;
    if next.overlay.None? {
      OverlayReplay(next, c);
    }
  }

  /** Closing the overlay frees the slot and leaves the admins as they were. */
  lemma CloseOverlay(st: State, ws: Conn)
    requires st.overlay == Some(ws)
    ensures OnClose(st, ws) == State(st.admins, None, st.scene)
  {
  }

  /** Closing an admin's connection removes exactly the first admin registered on it, so its
      sources, and only they, drop out of every later replay. */
  lemma CloseAdmin(st: State, ws: Conn)
    requires st.overlay != Some(ws) && AdminIndex(st.admins, ws) >= 0
    ensures var i := AdminIndex(st.admins, ws); var next := OnClose(st, ws);
      && next.overlay == st.overlay && next.scene == st.scene
      && next.admins == st.admins[..i] + st.admins[i + 1..]
      && Catalog(next.admins) == Catalog(st.admins[..i]) + Catalog(st.admins[i + 1..])
      && multiset(Catalog(next.admins)) == multiset(Catalog(st.admins)) - multiset(st.admins[i].sources)
  {
    var i := AdminIndex(st.admins, ws);
    CatalogConcat(st.admins[..i], st.admins[i + 1..]);
    CatalogSplit(st.admins, i);
  }

  /** Closing a connection the relay does not know changes nothing. */
  lemma CloseUnknown(st: State, ws: Conn)
    requires st.overlay != Some(ws) && AdminIndex(st.admins, ws) == -1
    ensures OnClose(st, ws) == st
  {
  }

  /** No message takes an admin away or retracts a source: admins keep their places and
      connections, and each admin's source list only grows. */
  lemma MessagesNeverRetract(st: State, ws: Conn, data: Frame, parsed: Option<Message>, open: set<Conn>)
    ensures var next := Apply(st, Received(ws, data, parsed, open));
      && |st.admins| <= |next.admins|
      && forall j :: 0 <= j < |st.admins| ==>
           next.admins[j].socket == st.admins[j].socket && st.admins[j].sources <= next.admins[j].sources
  {
  }

  /** The overlay in the slot stays there, whatever messages arrive and whoever else closes,
      until its own connection closes. */
  lemma {:induction false} OverlayStaysUntilClosed(st: State, events: seq<Event>, o: Conn)
    requires st.overlay == Some(o)
    requires forall k :: 0 <= k < |events| ==> events[k] != Closed(o)
    ensures Run(st, events).overlay == Some(o)
    decreases events
  {
    if events != [] {
      var next := Apply(st, events[0]);
      assert next.overlay == Some(o);
      OverlayStaysUntilClosed(next, events[1..], o);
    }
  }
}
