/** The relay of src/server/WebSocketManager.ts as a class whose methods update its fields in
    place. `outbox` is everything the manager has sent or closed, in order; each method is
    proved to do exactly what the matching step of module Relay says. */
module Manager {
  import opened Types
  import opened Transport
  import opened Relay

  class WebSocketManager {
    var admins: seq<AdminClient>
    var overlay: Option<Conn>
    var currentScene: Scene
    var outbox: seq<Effect>

    /** The relay state the fields hold. */
    function Current(): State
      reads this`admins, this`overlay, this`currentScene
    {
      State(admins, overlay, currentScene)
    }

    /** A fresh manager: no admins, no overlay, scene "start", nothing sent. */
    constructor ()
      ensures admins == [] && overlay == None && currentScene == Start
      ensures Current() == Initial() && outbox == []
    {
      admins := [];
      overlay := None;
      currentScene := Start;
      outbox := [];
    }

    /** Dispatches on the declared role; reports false, doing nothing, for any other role. */
    method Register(ws: Conn, t: ClientType) returns (handled: bool)
      modifies this
      ensures handled <==> Relay.Register(old(Current()), ws, t).Some?
      ensures handled ==> Current() == Relay.Register(old(Current()), ws, t).value.state
      ensures handled ==> outbox == old(outbox) + Relay.Register(old(Current()), ws, t).value.effects
      ensures !handled ==> Current() == old(Current()) && outbox == old(outbox)
    {
      match t
      case Admin =>
        RegisterAdmin(ws);
        return true;
      case Overlay =>
        RegisterOverlay(ws);
        return true;
      case Unrecognized(_) =>
        return false;
    }

    method RegisterAdmin(ws: Conn)
      modifies this
      ensures admins == old(admins) + [AdminClient(ws, [])]
      ensures overlay == old(overlay) && currentScene == old(currentScene)
      ensures outbox == old(outbox) + [Send(ws, Envelope(SetScene(currentScene)))]
      ensures Step(Current(), outbox[|old(outbox)|..]) == Relay.RegisterAdmin(old(Current()), ws)
    {
      admins := admins + [AdminClient(ws, [])];
      outbox := outbox + [Send(ws, Envelope(SetScene(currentScene)))];
    }

    method RegisterOverlay(ws: Conn)
      modifies this
      ensures old(overlay).Some? ==>
        && admins == old(admins) && overlay == old(overlay) && currentScene == old(currentScene)
        && outbox == old(outbox) + [Close(ws, 1000, "An overlay is already connected.")]
      ensures Current() == Relay.RegisterOverlay(old(Current()), ws).state
      ensures outbox == old(outbox) + Relay.RegisterOverlay(old(Current()), ws).effects
    {
      if overlay.Some? {
        outbox := outbox + [Close(ws, NormalClosure, OverlayTaken)];
        return;
      }
      overlay := Some(ws);
      ghost var replay := SendSources(ws, Catalog(admins));
      ghost var notices := SendAll(Sockets(admins), Envelope(NewOverlay));
      ghost var scene := Send(ws, Envelope(SetScene(currentScene)));
      assert Relay.RegisterOverlay(old(Current()), ws).effects == replay + [scene] + notices;
      SendSourcesTo(ws, Catalog(admins));
      outbox := outbox + [Send(ws, Envelope(SetScene(currentScene)))];
      SendToEach(Sockets(admins), Envelope(NewOverlay));
      assert outbox == old(outbox) + replay + [scene] + notices;
      assert old(outbox) + replay + [scene] + notices == old(outbox) + (replay + [scene] + notices);
    }

    /** Sends `ws` one `newSource` envelope per source, in order. */
    method SendSourcesTo(ws: Conn, sources: seq<StreamSource>)
      modifies this`outbox
      ensures outbox == old(outbox) + SendSources(ws, sources)
    {
      for i := 0 to |sources|
        invariant outbox == old(outbox) + SendSources(ws, sources[..i])
      {
        outbox := outbox + [Send(ws, Envelope(NewSource(sources[i])))];
        assert sources[..i + 1] == sources[..i] + [sources[i]];
        SendSourcesSnoc(ws, sources[..i], sources[i]);
      }
      assert sources[..|sources|] == sources;
    }

    /** Sends `p` to each target, in order. */
    method SendToEach(targets: seq<Conn>, p: Payload)
      modifies this`outbox
      ensures outbox == old(outbox) + SendAll(targets, p)
    {
      for i := 0 to |targets|
        invariant outbox == old(outbox) + SendAll(targets[..i], p)
      {
        outbox := outbox + [Send(targets[i], p)];
        assert targets[..i + 1] == targets[..i] + [targets[i]];
        SendAllSnoc(targets[..i], targets[i], p);
      }
      assert targets[..|targets|] == targets;
    }

    /** Sends `p` to each target whose connection is open, in order (the `readyState` check). */
    method SendToEachOpen(targets: seq<Conn>, open: set<Conn>, p: Payload)
      modifies this`outbox
      ensures outbox == old(outbox) + SendToOpen(targets, open, p)
    {
      for i := 0 to |targets|
        invariant outbox == old(outbox) + SendToOpen(targets[..i], open, p)
      {
        if targets[i] in open {
          outbox := outbox + [Send(targets[i], p)];
        }
        assert targets[..i + 1] == targets[..i] + [targets[i]];
        SendToOpenSnoc(targets[..i], targets[i], open, p);
      }
      assert targets[..|targets|] == targets;
    }

    /** Handles one received frame; `parsed` is what parsing it as JSON gives, None when that
        throws, in which case the call ends with the error and nothing has changed. */
    method OnMessage(ws: Conn, data: Frame, parsed: Option<Message>, open: set<Conn>) returns (threw: bool)
      modifies this
      ensures threw <==> parsed.None?
      ensures threw ==> Current() == old(Current()) && outbox == old(outbox)
      ensures !threw ==> Current() == Relay.OnMessage(old(Current()), ws, data, parsed, open).step.state
      ensures !threw ==> outbox == old(outbox) + Relay.OnMessage(old(Current()), ws, data, parsed, open).step.effects
    {
      if parsed.None? {
        return true;
      }
      threw := false;
      var message := parsed.value;
      if message.ConnectClient? {
        var handled := Register(ws, message.clientType);
        if handled {
          return;
        }
      }
      Forward(ws, data, message, open);
    }

    /** The routing part of `onMessage`, for a message registration did not consume. */
    method Forward(ws: Conn, data: Frame, message: Message, open: set<Conn>)
      modifies this
      ensures Current() == Relay.Forward(old(Current()), ws, data, message, open).state
      ensures outbox == old(outbox) + Relay.Forward(old(Current()), ws, data, message, open).effects
    {
      var adminIndex := AdminIndex(admins, ws);
      if overlay == Some(ws) {
        SendToEachOpen(Sockets(admins), open, Forwarded(data));
      } else if adminIndex >= 0 {
        var admin := admins[adminIndex];
        match message {
          case SetScene(scene) =>
            currentScene := scene;
          case NewSource(source) =>
            admins := admins[adminIndex := admin.(sources := admin.sources + [source])];
          case _ =>
        }
        if overlay.Some? && overlay.value in open {
          outbox := outbox + [Send(overlay.value, Forwarded(data))];
        }
      }
    }

    method OnClose(ws: Conn)
      modifies this
      ensures Current() == Relay.OnClose(old(Current()), ws)
      ensures outbox == old(outbox)
    {
      if overlay == Some(ws) {
        overlay := None;
        return;
      }
      var pos := AdminIndex(admins, ws);
      if pos == -1 {
        return;
      }
      admins := admins[..pos] + admins[pos + 1..];
    }
  }
}
