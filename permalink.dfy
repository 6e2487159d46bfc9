/** The matrix.to permalink of the triggering event, with one `via=` routing
    hint per configured server. */
module Permalink {
  import opened Wrappers
  import opened Strings

  const MatrixToBase: string := "https://matrix.to/#/"

  /** The permalink without its query: `https://matrix.to/#/<room>/<event>`. */
  function EventPath(roomId: string, eventId: string): string {
    MatrixToBase + roomId + "/" + eventId
  }

  /** The query part of the permalink: a `?` and one `via=<server>` parameter
      per configured server, separated by `&`; empty when there are no servers. */
  function ViaQuery(viaServers: seq<string>): string {
    if |viaServers| > 0 then "?" + Join("&", Prefixed("via=", viaServers)) else ""
  }

  /** `create_matrix_to_url`: the event path followed by the via query. Its
      query reads back as the configured servers, in order, whenever no server
      name contains the separator `&`. */
  function MatrixToUrl(viaServers: seq<string>, roomId: string, eventId: string): (url: string)
    ensures StartsWith(url, EventPath(roomId, eventId))
    ensures |viaServers| == 0 ==> url == EventPath(roomId, eventId)
    ensures |viaServers| > 0 ==> |url| > |EventPath(roomId, eventId)| && url[|EventPath(roomId, eventId)|] == '?'
    ensures NoAmpersand(viaServers) ==>
              ParseViaQuery(url[|EventPath(roomId, eventId)|..]) == Some(viaServers)
  {
    var path := EventPath(roomId, eventId);
    var query := ViaQuery(viaServers);
    SplitAt(path, query);
    assert NoAmpersand(viaServers) ==> ParseViaQuery(query) == Some(viaServers) by {
      if NoAmpersand(viaServers) {
        ViaQueryRoundTrip(viaServers);
      }
    }
    path + query
  }

  /** No server name contains the query separator. */
  predicate NoAmpersand(viaServers: seq<string>) {
    forall i :: 0 <= i < |viaServers| ==> '&' !in viaServers[i]
  }

  lemma SplitAt(a: string, b: string)
    ensures (a + b)[..|a|] == a && (a + b)[|a|..] == b
  {
  }

  /** Reads a query string back into the list of `via` servers: the inverse
      of ViaQuery. */
  function ParseViaQuery(q: string): Option<seq<string>> {
    if |q| == 0 then Some([])
    else if q[0] != '?' then None
    else StripVia(Split(q[1..], '&'))
  }

  /** Drops the `via=` in front of every parameter; None if one lacks it. */
  function StripVia(params: seq<string>): Option<seq<string>> {
    if |params| == 0 then Some([])
    else if !StartsWith(params[0], "via=") then None
    else
      match StripVia(params[1..])
      case None => None
      case Some(rest) => Some([params[0][4..]] + rest)
  }

  lemma {:induction false} StripViaPrefixed(servers: seq<string>)
    ensures StripVia(Prefixed("via=", servers)) == Some(servers)
  {
    if |servers| > 0 {
      var ps := Prefixed("via=", servers);
      assert ps[1..] == Prefixed("via=", servers[1..]);
      StripViaPrefixed(servers[1..]);
      assert ps[0][4..] == servers[0];
      assert [servers[0]] + servers[1..] == servers;
    }
  }

  /** The via query lists exactly the configured servers, in configured order. */
  lemma ViaQueryRoundTrip(viaServers: seq<string>)
    requires NoAmpersand(viaServers)
    ensures ParseViaQuery(ViaQuery(viaServers)) == Some(viaServers)
  {
    if |viaServers| > 0 {
      var ps := Prefixed("via=", viaServers);
      assert forall i :: 0 <= i < |ps| ==> '&' !in ps[i];
      SplitJoin(ps, '&');
      var q := ViaQuery(viaServers);
      assert q[1..] == Join("&", ps);
      assert ['&'] == "&";
      StripViaPrefixed(viaServers);
    }
  }
}
