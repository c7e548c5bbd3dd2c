/** The message schema shared by the relay and its clients (src/types.ts). */
module Types {

  datatype Option<+T> = None | Some(value: T)

  /** The production scenes, in the order the `scenes` constant lists them. */
  datatype Scene = Start | Camera | Screen | CameraAndScreen | End

  /** The kind of a published media feed. */
  datatype StreamType = CameraFeed | ScreenFeed

  /** One published feed: its kind and its track identifiers, in order. */
  datatype StreamSource = StreamSource(kind: StreamType, trackIds: seq<string>)

  /** The role a client declares in `connectClient`. The envelope is free JSON, so a value other
      than the two roles can arrive at run time; it is kept as `Unrecognized`. */
  datatype ClientType = Admin | Overlay | Unrecognized(name: string)

  /** The parsed envelopes. `candidate` is the ICE candidate object, opaque here (None is JSON null).
      Parsing does not check the `type` field, so any other value arrives as `Untyped`. */
  datatype Message =
    | ConnectClient(clientType: ClientType)
    | NewOverlay
    | SetScene(scene: Scene)
    | NewSource(source: StreamSource)
    | IceCandidate(candidate: Option<string>)
    | Offer(sdp: string)
    | Answer(sdp: string)
    | Untyped(kind: string)

  /** The wire name of a scene. */
  function SceneName(s: Scene): string
  {
    match s
    case Start => "start"
    case Camera => "camera"
    case Screen => "screen"
    case CameraAndScreen => "camera & screen"
    case End => "end"
  }

  /** The scene with the given wire name, if the name is one of the five. */
  function SceneNamed(name: string): (r: Option<Scene>)
    ensures r.Some? ==> SceneName(r.value) == name
  {
    if name == "start" then Some(Start)
    else if name == "camera" then Some(Camera)
    else if name == "screen" then Some(Screen)
    else if name == "camera & screen" then Some(CameraAndScreen)
    else if name == "end" then Some(End)
    else None
  }

  /** Every scene's wire name is recognised again, so the five names are distinct. */
  lemma SceneNameRoundTrip(s: Scene)
    ensures SceneNamed(SceneName(s)) == Some(s)
  {
    match s
    case Start =>
    case Camera => assert SceneName(s) != "start";
    case Screen => assert SceneName(s) != "start" && SceneName(s) != "camera";
    case CameraAndScreen =>
      assert SceneName(s)[0] == 'c' && SceneName(s) != "camera";
    case End =>
  }
}
