/** How the serverless endpoints name the calling client: the first entry of the
    `x-forwarded-for` header, trimmed; failing that the `x-real-ip` header; failing
    that the loopback address. An absent header is the empty string. */
module ClientIp {
  import opened Text

  const Loopback: string := "127.0.0.1"

  /** The first comma-separated entry of `x-forwarded-for`, trimmed. */
  function FirstForwarded(forwardedFor: string): (r: string)
    ensures ',' !in r
    ensures r == [] || (!IsWhitespace(r[0]) && !IsWhitespace(r[|r| - 1]))
  {
    var first := BeforeFirst(forwardedFor, ',');
    var r := Trim(first);
    var k := |first| - |TrimStart(first)|;
    forall i | 0 <= i < |r|
      ensures r[i] != ','
    {
      assert r[i] == TrimStart(first)[i] == first[k + i];
    }
    r
  }

  function ResolveIp(forwardedFor: string, realIp: string): (ip: string)
    ensures ip != ""
    ensures FirstForwarded(forwardedFor) != "" ==> ip == FirstForwarded(forwardedFor)
    ensures FirstForwarded(forwardedFor) == "" && realIp != "" ==> ip == realIp
    ensures FirstForwarded(forwardedFor) == "" && realIp == "" ==> ip == Loopback
  {
    var first := FirstForwarded(forwardedFor);
    if first != "" then first else if realIp != "" then realIp else Loopback
  }

  /** Behind a chain of proxies (`client, proxy1, proxy2`) the client's own address,
      the first entry, is the one used; the later entries and `x-real-ip` are ignored. */
  lemma {:induction false} ClientEntryWins(client: string, proxies: string, realIp: string)
    requires client != [] && ',' !in client
    requires !IsWhitespace(client[0]) && !IsWhitespace(client[|client| - 1])
    ensures ResolveIp(client + "," + proxies, realIp) == client
  {
    var h := client + "," + proxies;
    assert h[|client|] == ',';
    assert h[..|client|] == client;
    assert BeforeFirst(h, ',') == client;
    TrimUnchanged(client);
  }

  /** Without a forwarding header the proxy's `x-real-ip` is used, and the loopback
      address only when that is absent too. */
  lemma NoForwardingHeader(realIp: string)
    ensures ResolveIp("", realIp) == (if realIp != "" then realIp else Loopback)
  {
    assert BeforeFirst("", ',') == "";
  }
}
