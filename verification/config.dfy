/** The HTTP base address the client derives from its socket address (`getApiUrl`). */
module Config {
  import opened Wrappers
  import opened Text

  /** The socket base address used when `VITE_WS_URL` is unset or empty. */
  const DefaultWsUrl: string := "ws://localhost:8000"

  /** `import.meta.env.VITE_WS_URL || 'ws://localhost:8000'`: an empty value is falsy too. */
  function WsBase(env: Option<string>): (base: string)
    ensures env.Some? && env.value != [] ==> base == env.value
    ensures env.None? || env.value == [] ==> base == DefaultWsUrl
  {
    if env.Some? && env.value != [] then env.value else DefaultWsUrl
  }

  /** `wsUrl.replace('wss://', 'https://').replace('ws://', 'http://')`. */
  function GetApiUrl(env: Option<string>): string {
    ReplaceFirst(ReplaceFirst(WsBase(env), "wss://", "https://"), "ws://", "http://")
  }

  /** A `wss://` address becomes `https://`; only the first `ws://` after it is rewritten too. */
  lemma {:induction false} ApiUrlFromSecure(rest: string)
    ensures GetApiUrl(Some("wss://" + rest)) == "https://" + ReplaceFirst(rest, "ws://", "http://")
  {
    var s := "wss://" + rest;
    assert FirstOccurrence(s, "wss://", 0) by {
      assert s[..6] == "wss://";
    }
    ReplaceFirstAt(s, "wss://", "https://", 0);
    assert s[6..] == rest;
    forall i | 0 <= i < 8 ensures !OccursAt("https://" + rest, "ws://", i) {
      NoOccurrenceAtMismatch("https://" + rest, "ws://", i, 0);
    }
    ReplaceFirstSkip("https://", rest, "ws://", "http://");
  }

  /** A `ws://` address becomes `http://`; only the first `wss://` after it is rewritten too. */
  lemma {:induction false} ApiUrlFromPlain(rest: string)
    ensures GetApiUrl(Some("ws://" + rest)) == "http://" + ReplaceFirst(rest, "wss://", "https://")
  {
    var s := "ws://" + rest;
    forall i | 0 <= i < 5 ensures !OccursAt(s, "wss://", i) {
      NoOccurrenceAtMismatch(s, "wss://", i, if i == 0 then 2 else 0);
    }
    ReplaceFirstSkip("ws://", rest, "wss://", "https://");
    var t := "ws://" + ReplaceFirst(rest, "wss://", "https://");
    assert FirstOccurrence(t, "ws://", 0) by {
      assert t[..5] == "ws://";
    }
    ReplaceFirstAt(t, "ws://", "http://", 0);
    assert t[5..] == ReplaceFirst(rest, "wss://", "https://");
  }

  /** An address with neither marker is returned as it is. */
  lemma ApiUrlUnmarked(s: string)
    requires s != []
    requires forall i :: !OccursAt(s, "wss://", i)
    requires forall i :: !OccursAt(s, "ws://", i)
    ensures GetApiUrl(Some(s)) == s
  {
    ReplaceFirstAbsent(s, "wss://", "https://");
    ReplaceFirstAbsent(s, "ws://", "http://");
  }

  /** With `VITE_WS_URL` unset or empty the HTTP base is `http://localhost:8000`. */
  lemma DefaultApiUrl(env: Option<string>)
    requires env == None || env == Some("")
    ensures GetApiUrl(env) == "http://localhost:8000"
  {
    var rest := "localhost:8000";
    var url := "ws://" + rest;
    assert "http://" + rest == "http://localhost:8000";
    assert WsBase(env) == url;
    AbsentWithoutLeadChar(rest, "wss://");
    ReplaceFirstAbsent(rest, "wss://", "https://");
    ApiUrlFromPlain(rest);
    assert GetApiUrl(Some(url)) == "http://" + rest;
    assert GetApiUrl(env) == GetApiUrl(Some(url));
  }
}
