/** What both HTTP handlers share: the extension of a path and the shape of a response. */
module Http {
  import opened Types

  /** The text after the last '.' of `s`, or all of `s` when it has no '.' (what
      `s.split(".").pop()` gives). */
  function Extension(s: string): (r: string)
    ensures |r| <= |s| && r == s[|s| - |r|..]
    ensures '.' !in r
    ensures |r| < |s| ==> s[|s| - |r| - 1] == '.'
  {
    if s == [] then []
    else if s[|s| - 1] == '.' then []
    else Extension(s[..|s| - 1]) + [s[|s| - 1]]
  }

  /** Whatever comes before it, the extension of `prefix.ext` is `ext` when `ext` has no dot. */
  lemma {:induction false} ExtensionAfterLastDot(prefix: string, ext: string)
    requires '.' !in ext
    ensures Extension(prefix + "." + ext) == ext
  {
    var s := prefix + "." + ext;
    if ext != [] {
      var init := ext[..|ext| - 1];
      assert ext[|ext| - 1] in ext;
      assert s[..|s| - 1] == prefix + "." + init;
      assert forall c :: c in init ==> c in ext;
      ExtensionAfterLastDot(prefix, init);
      assert ext == init + [ext[|ext| - 1]];
    }
  }

  /** A path without any dot is its own extension. */
  lemma {:induction false} ExtensionWithoutDot(s: string)
    requires '.' !in s
    ensures Extension(s) == s
  {
    if s != [] {
      var init := s[..|s| - 1];
      assert s[|s| - 1] in s;
      assert forall c :: c in init ==> c in s;
      ExtensionWithoutDot(init);
      assert s == init + [s[|s| - 1]];
    }
  }

  datatype Body = TextBody(text: string) | FileBody(path: string)

  /** A response: status, body and the Content-Type header, None when none is set. */
  datatype Response = Response(status: int, body: Body, contentType: Option<string>)

  /** What a request handler does: whether it tried to upgrade the connection to a WebSocket,
      and the response it returns. */
  datatype Reply = Reply(upgradeAttempted: bool, response: Response)

  const Status426 := Response(426, TextBody("Upgrade Required"), None)
  const NotFound := Response(404, TextBody("Not Found"), None)
}
