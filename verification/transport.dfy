/** The transport as the relays see it: connection handles, the frames they carry and the
    effects (sends and closes) a handler performs on them. */
module Transport {
  import opened Types

  /** An opaque connection handle; two handles are the same connection when they are equal. */
  type Conn = nat

  newtype byte = x: int | 0 <= x < 256

  /** A WebSocket frame as received: a text message or a binary one. */
  datatype Frame = Text(text: string) | Binary(bytes: seq<byte>)

  /** What is sent: a received frame passed on untouched, or an envelope the server built
      and serialised itself. */
  datatype Payload = Forwarded(frame: Frame) | Envelope(message: Message)

  /** One observable action on a connection, in the order it happens. */
  datatype Effect =
    | Send(to: Conn, payload: Payload)
    | Close(conn: Conn, code: int, reason: string)

  /** The position of the first occurrence of `x` in `s`, or -1 (`Array.prototype.indexOf`). */
  function IndexOf(s: seq<Conn>, x: Conn): (r: int)
    ensures -1 <= r < |s|
    ensures r >= 0 ==> s[r] == x && forall j :: 0 <= j < r ==> s[j] != x
    ensures r == -1 <==> x !in s
  {
    if s == [] then -1
    else if s[0] == x then 0
    else
      var i := IndexOf(s[1..], x);
      if i == -1 then -1 else i + 1
  }

  /** Sending `p` to each target in turn. */
  function SendAll(targets: seq<Conn>, p: Payload): (r: seq<Effect>)
    ensures |r| == |targets|
  {
    if targets == [] then []
    else SendAll(targets[..|targets| - 1], p) + [Send(targets[|targets| - 1], p)]
  }

  /** The k-th send goes to the k-th target, and there is one send per target. */
  lemma {:induction false} SendAllAt(targets: seq<Conn>, p: Payload)
    ensures |SendAll(targets, p)| == |targets|
    ensures forall k :: 0 <= k < |targets| ==> SendAll(targets, p)[k] == Send(targets[k], p)
  {
    if targets != [] {
      SendAllAt(targets[..|targets| - 1], p);
    }
  }

  /** Sending `p` to each target in turn whose connection is open, skipping the others. */
  function SendToOpen(targets: seq<Conn>, open: set<Conn>, p: Payload): (r: seq<Effect>)
    ensures |r| <= |targets|
  {
    if targets == [] then []
    else
      var last := targets[|targets| - 1];
      SendToOpen(targets[..|targets| - 1], open, p) + (if last in open then [Send(last, p)] else [])
  }

  /** Every send carries `p` to an open target, every open target is sent `p`, and as many
      times as it occurs among the targets; closed targets are sent nothing. */
  lemma {:induction false} SendToOpenReaches(targets: seq<Conn>, open: set<Conn>, p: Payload)
    ensures forall e :: e in SendToOpen(targets, open, p) ==>
      e.Send? && e.payload == p && e.to in open && e.to in targets
    ensures forall t :: t in targets && t in open ==> Send(t, p) in SendToOpen(targets, open, p)
    ensures forall t :: multiset(SendToOpen(targets, open, p))[Send(t, p)]
                        == if t in open then multiset(targets)[t] else 0
  {
    if targets != [] {
      var last := targets[|targets| - 1];
      var init := targets[..|targets| - 1];
      assert targets == init + [last];
      SendToOpenReaches(init, open, p);
    }
  }

  lemma SendAllSnoc(targets: seq<Conn>, t: Conn, p: Payload)
    ensures SendAll(targets + [t], p) == SendAll(targets, p) + [Send(t, p)]
  {
    assert (targets + [t])[..|targets|] == targets;
  }

  lemma SendToOpenSnoc(targets: seq<Conn>, t: Conn, open: set<Conn>, p: Payload)
    ensures SendToOpen(targets + [t], open, p)
      == SendToOpen(targets, open, p) + (if t in open then [Send(t, p)] else [])
  {
    assert (targets + [t])[..|targets|] == targets;
  }
}
