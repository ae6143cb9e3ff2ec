/**
 * The two endpoint strings the client driver derives from a `window.location`-like value:
 * the websocket endpoint of the game server and the plain HTTP endpoint.
 */
module Driver {

  /** The parts of `window.location` the driver reads. */
  datatype Location = Location(protocol: string, host: string)

  const SECURE_PROTOCOL: string := "https:"
  const COLYSEUS_PATH: string := "/colyseus"

  /** The websocket scheme: secure exactly when the page was served over https. */
  function WebsocketScheme(protocol: string): (s: string)
    ensures s == "wss:" <==> protocol == SECURE_PROTOCOL
    ensures s == "ws:" <==> protocol != SECURE_PROTOCOL
    ensures |s| == if protocol == SECURE_PROTOCOL then 4 else 3
  {
    if protocol == SECURE_PROTOCOL then "wss:" else "ws:"
  }

  /** `getColyseusEndpoint`: scheme, then `//`, the host verbatim, and the `/colyseus` path. */
  function GetColyseusEndpoint(location: Location): (r: string)
    ensures |r| == |WebsocketScheme(location.protocol)| + 2 + |location.host| + |COLYSEUS_PATH|
    ensures location.protocol == SECURE_PROTOCOL ==> r[..6] == "wss://"
    ensures location.protocol != SECURE_PROTOCOL ==> r[..5] == "ws://"
    ensures r[|r| - |COLYSEUS_PATH|..] == COLYSEUS_PATH
    ensures r[|WebsocketScheme(location.protocol)| + 2..|r| - |COLYSEUS_PATH|] == location.host
  {
    WebsocketScheme(location.protocol) + "//" + location.host + COLYSEUS_PATH
  }

  /** The `httpEndpoint` field set by the driver's constructor. */
  function HttpEndpoint(location: Location): (r: string)
    ensures |r| == |location.protocol| + 2 + |location.host|
    ensures r[..|location.protocol|] == location.protocol
    ensures r[|location.protocol|..] == "//" + location.host
  {
    location.protocol + "//" + location.host
  }

  /** Reads the host back out of a websocket endpoint; the inverse of `GetColyseusEndpoint`. */
  function HostOf(endpoint: string): string {
    var start := if |endpoint| >= 6 && endpoint[..6] == "wss://" then 6 else 5;
    if |endpoint| >= start + |COLYSEUS_PATH| then endpoint[start..|endpoint| - |COLYSEUS_PATH|] else ""
  }

  lemma HostRoundTrip(location: Location)
    ensures HostOf(GetColyseusEndpoint(location)) == location.host
  {
    var e := GetColyseusEndpoint(location);
    if location.protocol != SECURE_PROTOCOL {
      assert e[..6] != "wss://" by { assert e[2] == ':'; }
    }
  }

  /**
   * Both endpoints name the same host: the websocket endpoint is the HTTP endpoint with its
   * protocol swapped for the websocket scheme and the `/colyseus` path appended.
   */
  lemma {:induction false} EndpointsAgree(location: Location)
    ensures GetColyseusEndpoint(location)
         == WebsocketScheme(location.protocol) + HttpEndpoint(location)[|location.protocol|..] + COLYSEUS_PATH
  {
    var http := HttpEndpoint(location);
    assert http[|location.protocol|..] == "//" + location.host;
  }
}
