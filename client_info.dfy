/** `get_client_ip` and `get_user_agent`: the request metadata stored with a submission. */
module ClientInfo {
  import opened Php
  import WordPress

  /** The `$_SERVER` keys consulted for the client address, highest priority first. */
  const IpSources: seq<string> := ["HTTP_CLIENT_IP", "HTTP_X_FORWARDED_FOR", "REMOTE_ADDR"]

  /**
   * Reference definition of a priority choice: the index of the first
   * candidate that is not empty, or `|candidates|` when all of them are.
   */
  function FirstNonEmpty(candidates: seq<string>): (k: nat)
    ensures k <= |candidates|
    ensures k < |candidates| ==> !Empty(candidates[k])
    ensures forall j :: 0 <= j < k ==> Empty(candidates[j])
  {
    if candidates == [] then 0
    else if !Empty(candidates[0]) then 0
    else 1 + FirstNonEmpty(candidates[1..])
  }

  /**
   * The client address: the proxy client header if it is not empty, else the
   * forwarded-for header if it is not empty, else the connection address;
   * the chosen value is passed through `sanitize_text_field`.
   */
  function ClientIp(server: map<string, string>, wp: WordPress.Api): (ip: string)
    ensures !Empty(Lookup(server, IpSources[0])) ==>
      ip == wp.sanitizeTextField(Lookup(server, IpSources[0]))
    ensures Empty(Lookup(server, IpSources[0])) && !Empty(Lookup(server, IpSources[1])) ==>
      ip == wp.sanitizeTextField(Lookup(server, IpSources[1]))
    ensures Empty(Lookup(server, IpSources[0])) && Empty(Lookup(server, IpSources[1])) ==>
      ip == wp.sanitizeTextField(Lookup(server, IpSources[2]))
  {
    var raw :=
      if !Empty(Lookup(server, "HTTP_CLIENT_IP")) then Lookup(server, "HTTP_CLIENT_IP")
      else if !Empty(Lookup(server, "HTTP_X_FORWARDED_FOR")) then Lookup(server, "HTTP_X_FORWARDED_FOR")
      else Lookup(server, "REMOTE_ADDR");
    wp.sanitizeTextField(raw)
  }

  /**
   * The address is taken from the first non-empty source in priority order;
   * the connection address is used when every header is empty, even if it is
   * empty itself.
   */
  lemma ClientIpIsFirstNonEmpty(server: map<string, string>, wp: WordPress.Api)
    ensures var values := [Lookup(server, IpSources[0]), Lookup(server, IpSources[1])];
            var k := FirstNonEmpty(values);
            ClientIp(server, wp) == wp.sanitizeTextField(if k < 2 then values[k] else Lookup(server, IpSources[2]))
  {
    var values := [Lookup(server, IpSources[0]), Lookup(server, IpSources[1])];
    assert values[1..] == [values[1]];
    assert values[1..][1..] == [];
  }

  /** The user agent header, sanitized, or "" when the header is absent. */
  function UserAgent(server: map<string, string>, wp: WordPress.Api): (ua: string)
    ensures "HTTP_USER_AGENT" !in server ==> ua == ""
    ensures "HTTP_USER_AGENT" in server ==> ua == wp.sanitizeTextField(server["HTTP_USER_AGENT"])
  {
    if "HTTP_USER_AGENT" in server then wp.sanitizeTextField(server["HTTP_USER_AGENT"]) else ""
  }
}
