/** The state and the handlers of the relay in src/server/WebSocketManager.ts, as values:
    each handler maps the relay's state to its next state and the effects it performs.
    The class in module Manager runs these steps in place and is proved to agree with them. */
module Relay {
  import opened Types
  import opened Transport

  /** A registered admin: its connection and the sources it published, in publication order. */
  datatype AdminClient = AdminClient(socket: Conn, sources: seq<StreamSource>)

  /** Everything the relay remembers: the admins in registration order, the overlay slot
      (at most one overlay, by construction) and the current scene. */
  datatype State = State(admins: seq<AdminClient>, overlay: Option<Conn>, scene: Scene)

  /** The next state and the effects, in order, of one handler call. */
  datatype Step = Step(state: State, effects: seq<Effect>)

  /** A message either throws while being parsed or is handled. */
  datatype Handling = ParseError | Handled(step: Step)

  /** Close code and reason used to turn away a second overlay. */
  const NormalClosure := 1000
  const OverlayTaken := "An overlay is already connected."

  function Initial(): State
  {
    State([], None, Start)
  }

  /** The admins' connections, in registration order. */
  function Sockets(admins: seq<AdminClient>): seq<Conn>
  {
    if admins == [] then []
    else Sockets(admins[..|admins| - 1]) + [admins[|admins| - 1].socket]
  }

  lemma {:induction false} SocketsAt(admins: seq<AdminClient>)
    ensures |Sockets(admins)| == |admins|
    ensures forall k :: 0 <= k < |admins| ==> Sockets(admins)[k] == admins[k].socket
  {
    if admins != [] {
      SocketsAt(admins[..|admins| - 1]);
    }
  }

  /** Every source of every admin, admin by admin and, within one admin, in publication
      order (the `flatMap` over `admins`). */
  function Catalog(admins: seq<AdminClient>): (r: seq<StreamSource>)
    ensures forall src :: src in r <==> exists i :: 0 <= i < |admins| && src in admins[i].sources
  {
    if admins == [] then [] else admins[0].sources + Catalog(admins[1..])
  }

  /** The position of the first admin registered on `ws`, or -1 (`findIndex`). */
  function AdminIndex(admins: seq<AdminClient>, ws: Conn): (r: int)
    ensures -1 <= r < |admins|
    ensures r >= 0 ==> admins[r].socket == ws && forall j :: 0 <= j < r ==> admins[j].socket != ws
    ensures r == -1 <==> forall j :: 0 <= j < |admins| ==> admins[j].socket != ws
  {
    if admins == [] then -1
    else if admins[0].socket == ws then 0
    else
      var i := AdminIndex(admins[1..], ws);
      if i == -1 then -1 else i + 1
  }

  /** A `newSource` envelope to `ws` for each source, in order. */
  function SendSources(ws: Conn, sources: seq<StreamSource>): seq<Effect>
  {
    if sources == [] then []
    else SendSources(ws, sources[..|sources| - 1]) + [Send(ws, Envelope(NewSource(sources[|sources| - 1])))]
  }

  lemma {:induction false} SendSourcesAt(ws: Conn, sources: seq<StreamSource>)
    ensures |SendSources(ws, sources)| == |sources|
    ensures forall k :: 0 <= k < |sources| ==>
      SendSources(ws, sources)[k] == Send(ws, Envelope(NewSource(sources[k])))
  {
    if sources != [] {
      SendSourcesAt(ws, sources[..|sources| - 1]);
    }
  }

  lemma SocketsSnoc(admins: seq<AdminClient>, a: AdminClient)
    ensures Sockets(admins + [a]) == Sockets(admins) + [a.socket]
  {
    assert (admins + [a])[..|admins|] == admins;
  }

  lemma SendSourcesSnoc(ws: Conn, sources: seq<StreamSource>, src: StreamSource)
    ensures SendSources(ws, sources + [src]) == SendSources(ws, sources) + [Send(ws, Envelope(NewSource(src)))]
  {
    assert (sources + [src])[..|sources|] == sources;
  }

  /** `registerAdmin`: a new admin with no sources joins at the end and is told the scene. */
  function RegisterAdmin(st: State, ws: Conn): (r: Step)
    ensures |r.state.admins| == |st.admins| + 1 && r.state.admins[..|st.admins|] == st.admins
    ensures r.state.admins[|st.admins|] == AdminClient(ws, [])
    ensures r.state.overlay == st.overlay && r.state.scene == st.scene
    ensures r.effects == [Send(ws, Envelope(SetScene(st.scene)))]
  {
    Step(st.(admins := st.admins + [AdminClient(ws, [])]), [Send(ws, Envelope(SetScene(st.scene)))])
  }

  /** `registerOverlay`: a second overlay is closed; otherwise the new overlay takes the slot,
      gets the catalog replayed and the scene, and every admin is told a new overlay came. */
  function RegisterOverlay(st: State, ws: Conn): (r: Step)
    ensures r.state.overlay.Some?
    ensures st.overlay.Some? ==> r.state == st && r.effects == [Close(ws, 1000, "An overlay is already connected.")]
    ensures st.overlay.None? ==>
      r.state.overlay == Some(ws) && r.state.admins == st.admins && r.state.scene == st.scene
  {
    if st.overlay.Some? then
      Step(st, [Close(ws, NormalClosure, OverlayTaken)])
    else
      Step(st.(overlay := Some(ws)),
           SendSources(ws, Catalog(st.admins))
           + [Send(ws, Envelope(SetScene(st.scene)))]
           + SendAll(Sockets(st.admins), Envelope(NewOverlay)))
  }

  /** `register`: None when the declared role is neither admin nor overlay (it returns false). */
  function Register(st: State, ws: Conn, t: ClientType): (r: Option<Step>)
    ensures r.None? <==> t.Unrecognized?
    ensures r.Some? ==> r.value.state.scene == st.scene
  {
    match t
    case Admin => Some(RegisterAdmin(st, ws))
    case Overlay => Some(RegisterOverlay(st, ws))
    case Unrecognized(_) => None
  }

  /** The bookkeeping an admin's message causes before it is forwarded. */
  function ApplyAdminMessage(st: State, i: nat, m: Message): (r: State)
    requires i < |st.admins|
    ensures r.overlay == st.overlay && r.scene == (if m.SetScene? then m.scene else st.scene)
    ensures |r.admins| == |st.admins|
    ensures forall j :: 0 <= j < |st.admins| ==>
      r.admins[j].socket == st.admins[j].socket && (j != i ==> r.admins[j] == st.admins[j])
  {
    match m
    case SetScene(s) => st.(scene := s)
    case NewSource(src) =>
      st.(admins := st.admins[i := st.admins[i].(sources := st.admins[i].sources + [src])])
    case _ => st
  }

  /** The frame sent on to the overlay, if there is one and its connection is open. */
  function ToOverlay(overlay: Option<Conn>, open: set<Conn>, data: Frame): seq<Effect>
  {
    if overlay.Some? && overlay.value in open then [Send(overlay.value, Forwarded(data))] else []
  }

  /** The forwarding part of `onMessage`: the overlay is looked for before the admins. */
  function Forward(st: State, ws: Conn, data: Frame, m: Message, open: set<Conn>): (r: Step)
    ensures r.state.overlay == st.overlay && |r.state.admins| == |st.admins|
    ensures forall j :: 0 <= j < |st.admins| ==> r.state.admins[j].socket == st.admins[j].socket
    ensures r.state.scene == st.scene || (m.SetScene? && r.state.scene == m.scene)
  {
    var i := AdminIndex(st.admins, ws);
    if st.overlay == Some(ws) then
      Step(st, SendToOpen(Sockets(st.admins), open, Forwarded(data)))
    else if i >= 0 then
      var next := ApplyAdminMessage(st, i, m);
      Step(next, ToOverlay(next.overlay, open, data))
    else
      Step(st, [])
  }

  /** `onMessage`: `parsed` is what parsing `data` as JSON gives, None when parsing throws. */
  function OnMessage(st: State, ws: Conn, data: Frame, parsed: Option<Message>, open: set<Conn>): (r: Handling)
    ensures r.ParseError? <==> parsed.None?
    ensures r.Handled? ==>
      r.step.state.scene == st.scene || (parsed.value.SetScene? && r.step.state.scene == parsed.value.scene)
  {
    match parsed
    case None => ParseError
    case Some(m) =>
      if m.ConnectClient? && Register(st, ws, m.clientType).Some? then
        Handled(Register(st, ws, m.clientType).value)
      else
        Handled(Forward(st, ws, data, m, open))
  }

  /** `onClose`: the overlay's slot is freed, or the first admin on `ws` is dropped. */
  function OnClose(st: State, ws: Conn): (r: State)
    ensures r.scene == st.scene && (r.overlay == st.overlay || r.overlay.None?)
    ensures |st.admins| - 1 <= |r.admins| <= |st.admins|
    ensures forall a :: a in st.admins && a.socket != ws ==> a in r.admins
  {
    if st.overlay == Some(ws) then st.(overlay := None)
    else
      var pos := AdminIndex(st.admins, ws);
      if pos == -1 then st
      else st.(admins := st.admins[..pos] + st.admins[pos + 1..])
  }

  // ---------------------------------------------------------------------------------------
  // Runs of the relay

  /** What the relay can be told by the server: a message arrived, or a connection closed. */
  datatype Event =
    | Received(ws: Conn, data: Frame, parsed: Option<Message>, open: set<Conn>)
    | Closed(ws: Conn)

  function Apply(st: State, e: Event): State
  {
    match e
    case Received(ws, data, parsed, open) =>
      (match OnMessage(st, ws, data, parsed, open)
       case ParseError => st
       case Handled(step) => step.state)
    case Closed(ws) => OnClose(st, ws)
  }

  function Run(st: State, events: seq<Event>): State
    decreases events
  {
    if events == [] then st else Run(Apply(st, events[0]), events[1..])
  }
}
