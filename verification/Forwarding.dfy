// Client identity across reverse proxies: the X-Forwarded-For walk of
// TrustedProxies.ClientIP and the header rewrite of Handler.setForwarded.
//
// The address library is a parameter. Parsing is a partial function on text, the
// trusted networks are a set of addresses, and no law is assumed of either.
module Forwarding {
  import opened Wrappers

  datatype Network<!A> = Network(
    parseAddr: string -> Option<A>,
    unmap: A -> A,
    format: A -> string,
    splitHostPort: string -> Option<string>,  // the host part of host:port
    trusted: A -> bool)

  // The fields of an HTTP request that the two functions read. Headers keep their
  // field lines in order; an absent header has none.
  datatype Request = Request(
    remoteAddr: string,
    host: string,
    tls: bool,
    forwardedFor: seq<string>,
    forwardedProto: seq<string>)

  // ---------------------------------------------------------------- text

  // unicode.IsSpace
  predicate IsSpace(c: char) {
    || c == ' ' || '\t' <= c <= '\r' || c == '\U{0085}' || c == '\U{00A0}' || c == '\U{1680}'
    || '\U{2000}' <= c <= '\U{200A}' || c == '\U{2028}' || c == '\U{2029}' || c == '\U{202F}'
    || c == '\U{205F}' || c == '\U{3000}'
  }

  function TrimLeft(s: string): string {
    if s != "" && IsSpace(s[0]) then TrimLeft(s[1..]) else s
  }

  function TrimRight(s: string): string {
    if s != "" && IsSpace(s[|s| - 1]) then TrimRight(s[..|s| - 1]) else s
  }

  // strings.TrimSpace
  function TrimSpace(s: string): string {
    TrimRight(TrimLeft(s))
  }

  ghost predicate Blank(s: string) {
    forall c | c in s :: IsSpace(c)
  }

  // Surrounding blanks go, and nothing else.
  lemma TrimSpaceRemovesBlanks(u: string, text: string, v: string)
    requires Blank(u) && Blank(v)
    requires text != "" ==> !IsSpace(text[0]) && !IsSpace(text[|text| - 1])
    ensures TrimSpace(u + text + v) == text
  {
    TrimLeftRemoves(u, text + v);
    assert u + text + v == u + (text + v);
    if text == "" {
      TrimLeftRemoves(v, "");
      assert text + v == v == v + "";
    } else {
      TrimRightRemoves(text, v);
    }
  }

  lemma {:induction false} TrimLeftRemoves(u: string, rest: string)
    requires Blank(u)
    ensures TrimLeft(u + rest) == TrimLeft(rest)
  {
    if u == "" {
      assert u + rest == rest;
    } else {
      assert (u + rest)[1..] == u[1..] + rest;
      TrimLeftRemoves(u[1..], rest);
    }
  }

  lemma {:induction false} TrimRightRemoves(text: string, v: string)
    requires Blank(v) && text != "" && !IsSpace(text[|text| - 1])
    ensures TrimRight(text + v) == text
  {
    if v == "" {
      assert text + v == text;
    } else {
      assert (text + v)[..|text + v| - 1] == text + v[..|v| - 1];
      TrimRightRemoves(text, v[..|v| - 1]);
    }
  }

  // strings.Split(s, ","), one character at a time.
  function Split(s: string): (parts: seq<string>)
    ensures |parts| > 0
  {
    if s == "" then [""] else Prepend(s[0], Split(s[1..]))
  }

  function Prepend(c: char, parts: seq<string>): (r: seq<string>)
    requires |parts| > 0
    ensures |r| > 0
  {
    if c == ',' then [""] + parts else [[c] + parts[0]] + parts[1..]
  }

  // strings.Join(lines, ", ")
  function Join(lines: seq<string>): string {
    if lines == [] then ""
    else if |lines| == 1 then lines[0]
    else lines[0] + ", " + Join(lines[1..])
  }

  // All list members of all field lines, left to right.
  function Hops(lines: seq<string>): seq<string> {
    if lines == [] then [] else Hops(lines[..|lines| - 1]) + Split(lines[|lines| - 1])
  }

  lemma PrependConcat(c: char, p: seq<string>, q: seq<string>)
    requires |p| > 0
    ensures Prepend(c, p + q) == Prepend(c, p) + q
  {
    assert (p + q)[1..] == p[1..] + q;
  }

  // Cutting at a comma and splitting both sides is splitting the whole.
  lemma {:induction false} SplitAtComma(a: string, b: string)
    ensures Split(a + "," + b) == Split(a) + Split(b)
  {
    var whole := a + "," + b;
    if a == "" {
      assert whole[1..] == b;
    } else {
      SplitAtComma(a[1..], b);
      assert whole[0] == a[0] && whole[1..] == a[1..] + "," + b;
      PrependConcat(a[0], Split(a[1..]), Split(b));
    }
  }

  lemma {:induction false} SplitWithoutComma(s: string)
    requires ',' !in s
    ensures Split(s) == [s]
  {
    if s != "" {
      SplitWithoutComma(s[1..]);
      assert s == [s[0]] + s[1..];
    }
  }

  // The parts with the commas put back between them.
  function CommaJoin(parts: seq<string>): string {
    if parts == [] then ""
    else if |parts| == 1 then parts[0]
    else parts[0] + "," + CommaJoin(parts[1..])
  }

  // Splitting is the only way to cut a text at all its commas.
  lemma SplitIff(s: string, parts: seq<string>)
    ensures Split(s) == parts <==> parts != [] && CommaJoin(parts) == s && forall p | p in parts :: ',' !in p
  {
    SplitJoins(s);
    if parts != [] && CommaJoin(parts) == s && forall p | p in parts :: ',' !in p {
      SplitOfJoin(parts);
    }
  }

  lemma PrependJoins(c: char, parts: seq<string>)
    requires parts != [] && forall p | p in parts :: ',' !in p
    ensures CommaJoin(Prepend(c, parts)) == [c] + CommaJoin(parts)
    ensures forall p | p in Prepend(c, parts) :: ',' !in p
  {
    var all := Prepend(c, parts);
    if c == ',' {
      assert all[1..] == parts;
    } else {
      assert all[1..] == parts[1..];
      assert ',' !in parts[0];
    }
  }

  lemma {:induction false} SplitJoins(s: string)
    ensures CommaJoin(Split(s)) == s && forall p | p in Split(s) :: ',' !in p
  {
    if s != "" {
      SplitJoins(s[1..]);
      PrependJoins(s[0], Split(s[1..]));
      assert s == [s[0]] + s[1..];
    }
  }

  lemma {:induction false} SplitOfJoin(parts: seq<string>)
    requires parts != [] && forall p | p in parts :: ',' !in p
    ensures Split(CommaJoin(parts)) == parts
  {
    SplitWithoutComma(parts[0]);
    if |parts| > 1 {
      SplitOfJoin(parts[1..]);
      SplitAtComma(parts[0], CommaJoin(parts[1..]));
    }
  }

  lemma {:induction false} JoinConcat(a: seq<string>, b: seq<string>)
    requires a != [] && b != []
    ensures Join(a + b) == Join(a) + ", " + Join(b)
  {
    assert (a + b)[1..] == a[1..] + b;
    if |a| > 1 {
      JoinConcat(a[1..], b);
    }
  }

  lemma {:induction false} HopsConcat(a: seq<string>, b: seq<string>)
    ensures Hops(a + b) == Hops(a) + Hops(b)
  {
    if b == [] {
      assert a + b == a;
    } else {
      var whole := a + b;
      var init, last := b[..|b| - 1], b[|b| - 1];
      assert whole[..|whole| - 1] == a + init && whole[|whole| - 1] == last;
      HopsConcat(a, init);
      assert Hops(whole) == Hops(a + init) + Split(last) && Hops(b) == Hops(init) + Split(last);
    }
  }

  // ---------------------------------------------------------------- addresses

  // hostOnly
  function HostOnly<A>(net: Network<A>, hostport: string): string {
    match net.splitHostPort(hostport)
    case Some(host) => host
    case None => hostport
  }

  // netip.ParseAddr followed by Unmap
  function Address<A>(net: Network<A>, text: string): Option<A> {
    match net.parseAddr(text)
    case Some(a) => Some(net.unmap(a))
    case None => None
  }

  // peerIP; None is the zero Addr
  function Peer<A>(net: Network<A>, r: Request): Option<A> {
    Address(net, HostOnly(net, r.remoteAddr))
  }

  // TrustedProxies.contains
  predicate Trusts<A>(net: Network<A>, a: Option<A>) {
    a.Some? && net.trusted(a.value)
  }

  // What each hop text says, in the walk's own reading of it.
  function Read<A>(net: Network<A>, hops: seq<string>): (addrs: seq<Option<A>>)
    ensures |addrs| == |hops|
    ensures forall i | 0 <= i < |hops| ::
              addrs[i] == match net.parseAddr(TrimSpace(hops[i])) case Some(a) => Some(net.unmap(a)) case None => None
  {
    seq(|hops|, i requires 0 <= i < |hops| => Address(net, TrimSpace(hops[i])))
  }

  // The right-to-left walk: the address reached from `client` through `addrs`.
  function Walk<A>(net: Network<A>, client: A, addrs: seq<Option<A>>): A {
    if addrs == [] then client
    else
      match addrs[|addrs| - 1]
      case None => client
      case Some(a) => if net.trusted(a) then Walk(net, a, addrs[..|addrs| - 1]) else a
  }

  function Claimed<A>(net: Network<A>, lines: seq<string>): seq<Option<A>> {
    Read(net, Hops(lines))
  }

  // The client as an address; None when the peer's own address does not parse.
  function Client<A>(net: Network<A>, r: Request): Option<A> {
    var peer := Peer(net, r);
    if Trusts(net, peer) then Some(Walk(net, peer.value, Claimed(net, r.forwardedFor))) else peer
  }

  // The text ClientIP returns, which is the key of sticky routing.
  function ClientText<A>(net: Network<A>, r: Request): string {
    var peer := Peer(net, r);
    if Trusts(net, peer)
    then net.format(Walk(net, peer.value, Claimed(net, r.forwardedFor)))
    else HostOnly(net, r.remoteAddr)
  }

  // An untrusted peer is named by its host text; a trusted one vouches for the address
  // from which the forwarded hops originate.
  method ClientIP<A(!new)>(net: Network<A>, r: Request) returns (text: string)
    ensures text == ClientText(net, r)
    ensures var split := net.splitHostPort(r.remoteAddr);
            var host := if split.Some? then split.value else r.remoteAddr;
            var parsed := net.parseAddr(host);
            if parsed.Some? && net.trusted(net.unmap(parsed.value))
            then exists client :: text == net.format(client) &&
                   Originates(net, net.unmap(parsed.value), Claimed(net, r.forwardedFor), client)
            else text == host
  {
    var peer := Peer(net, r);
    if !Trusts(net, peer) {
      return HostOnly(net, r.remoteAddr);
    }
    ClientOriginates(net, r);
    var hops: seq<string> := [];
    for k := 0 to |r.forwardedFor|
      invariant hops == Hops(r.forwardedFor[..k])
    {
      hops := hops + Split(r.forwardedFor[k]);
      assert r.forwardedFor[..k + 1][..k] == r.forwardedFor[..k];
    }
    assert r.forwardedFor[..|r.forwardedFor|] == r.forwardedFor;
    var client := peer.value;
    var k := |hops|;
    ghost var answer := Walk(net, peer.value, Read(net, hops));
    assert Read(net, hops)[..k] == Read(net, hops);
    while k > 0
      invariant 0 <= k <= |hops|
      invariant Walk(net, client, Read(net, hops)[..k]) == answer
    {
      k := k - 1;
      ghost var left := Read(net, hops)[..k + 1];
      assert left[..|left| - 1] == Read(net, hops)[..k];
      var addr := net.parseAddr(TrimSpace(hops[k]));
      if addr.None? {
        break;
      }
      client := net.unmap(addr.value);
      if !net.trusted(client) {
        break;
      }
    }
    text := net.format(client);
  }

  lemma ClientOriginates<A(!new)>(net: Network<A>, r: Request)
    requires Trusts(net, Peer(net, r))
    ensures exists client :: ClientText(net, r) == net.format(client) &&
              Originates(net, Peer(net, r).value, Claimed(net, r.forwardedFor), client)
  {
    var peer, addrs := Peer(net, r).value, Claimed(net, r.forwardedFor);
    WalkFindsOrigin(net, peer, addrs, Walk(net, peer, addrs));
  }

  // ---------------------------------------------------------------- what the walk finds

  ghost predicate AllTrusted<A>(net: Network<A>, addrs: seq<Option<A>>) {
    forall i | 0 <= i < |addrs| :: Trusts(net, addrs[i])
  }

  // `k` is the rightmost hop that is not a trusted address, or -1.
  ghost predicate StopsAt<A>(net: Network<A>, addrs: seq<Option<A>>, k: int) {
    && -1 <= k < |addrs|
    && (k >= 0 ==> addrs[k].None? || !net.trusted(addrs[k].value))
    && forall i | k < i < |addrs| :: addrs[i].Some? && net.trusted(addrs[i].value)
  }

  // The documented answer: the rightmost address outside the trusted set; behind a
  // malformed hop, or with nothing left to walk, the last address that was believed.
  ghost predicate Originates<A(!new)>(net: Network<A>, peer: A, addrs: seq<Option<A>>, client: A) {
    exists k :: StopsAt(net, addrs, k) && client == BelievedAt(peer, addrs, k)
  }

  function BelievedAt<A>(peer: A, addrs: seq<Option<A>>, k: int): A
    requires -1 <= k < |addrs|
    requires forall i | k < i < |addrs| :: addrs[i].Some?
  {
    if k >= 0 && addrs[k].Some? then addrs[k].value
    else if k + 1 < |addrs| then addrs[k + 1].value
    else peer
  }

  lemma {:induction false} WalkFindsOrigin<A(!new)>(net: Network<A>, peer: A, addrs: seq<Option<A>>, client: A)
    ensures Walk(net, peer, addrs) == client <==> Originates(net, peer, addrs, client)
  {
    var k := WalkStops(net, peer, addrs);
    forall k' | StopsAt(net, addrs, k')
      ensures k' == k
    {
    }
  }

  lemma {:induction false} WalkStops<A>(net: Network<A>, peer: A, addrs: seq<Option<A>>) returns (k: int)
    ensures StopsAt(net, addrs, k) && Walk(net, peer, addrs) == BelievedAt(peer, addrs, k)
    decreases |addrs|
  {
    var n := |addrs|;
    if n == 0 || !Trusts(net, addrs[n - 1]) {
      k := n - 1;
    } else {
      k := WalkStops(net, addrs[n - 1].value, addrs[..n - 1]);
    }
  }

  // Whatever stands to the left of a hop the walk stops at is never read; when
  // every hop is trusted, the walk goes on to the left from where it arrived.
  lemma {:induction false} WalkPrefix<A>(net: Network<A>, peer: A, left: seq<Option<A>>, addrs: seq<Option<A>>)
    ensures AllTrusted(net, addrs) ==> Walk(net, peer, left + addrs) == Walk(net, Walk(net, peer, addrs), left)
    ensures !AllTrusted(net, addrs) ==> Walk(net, peer, left + addrs) == Walk(net, peer, addrs)
  {
    var n := |addrs|;
    var all := left + addrs;
    if n == 0 {
      assert all == left;
    } else {
      assert all[|all| - 1] == addrs[n - 1];
      assert all[..|all| - 1] == left + addrs[..n - 1];
      assert addrs == addrs[..n - 1] + [addrs[n - 1]];
      if Trusts(net, addrs[n - 1]) {
        WalkPrefix(net, addrs[n - 1].value, left, addrs[..n - 1]);
      }
    }
  }

  lemma ReadConcat<A>(net: Network<A>, a: seq<string>, b: seq<string>)
    ensures Read(net, a + b) == Read(net, a) + Read(net, b)
  {
  }

  lemma ClaimedConcat<A>(net: Network<A>, a: seq<string>, b: seq<string>)
    ensures Claimed(net, a + b) == Claimed(net, a) + Claimed(net, b)
  {
    HopsConcat(a, b);
    ReadConcat(net, Hops(a), Hops(b));
  }

  // A caller behind a trusted proxy can write any X-Forwarded-For it likes: as soon
  // as one proxy has appended an address outside the trusted set (or anything that
  // is not an address), field lines sent before it do not matter.
  lemma ForgedPrefixIsIgnored<A>(net: Network<A>, r: Request, forged: seq<string>)
    requires Trusts(net, Peer(net, r))
    ensures !AllTrusted(net, Claimed(net, r.forwardedFor)) ==>
              ClientText(net, r.(forwardedFor := forged + r.forwardedFor)) == ClientText(net, r)
    ensures AllTrusted(net, Claimed(net, r.forwardedFor)) ==>
              forall text: string, a: A | Claimed(net, [text]) == [Some(a)] && !net.trusted(a) ::
                Client(net, r.(forwardedFor := [text] + r.forwardedFor)) == Some(a)
  {
    var lines := r.forwardedFor;
    var peer := Peer(net, r).value;
    ClaimedConcat(net, forged, lines);
    WalkPrefix(net, peer, Claimed(net, forged), Claimed(net, lines));
    if AllTrusted(net, Claimed(net, lines)) {
      forall text: string, a: A | Claimed(net, [text]) == [Some(a)] && !net.trusted(a)
        ensures Client(net, r.(forwardedFor := [text] + lines)) == Some(a)
      {
        ClaimedConcat(net, [text], lines);
        WalkPrefix(net, peer, [Some(a)], Claimed(net, lines));
      }
    }
  }

  // One field line "x,y" and two field lines "x" and "y" name the same client.
  lemma FieldLinesCombine<A>(net: Network<A>, r: Request, before: seq<string>, x: string, y: string, after: seq<string>)
    ensures ClientText(net, r.(forwardedFor := before + [x + "," + y] + after)) ==
            ClientText(net, r.(forwardedFor := before + [x, y] + after))
  {
    SplitAtComma(x, y);
    HopsConcat(before + [x + "," + y], after);
    HopsConcat(before + [x, y], after);
    HopsConcat(before, [x + "," + y]);
    HopsConcat(before, [x, y]);
    assert [x, y][..1] == [x];
    assert Hops([x, y]) == Hops([x]) + Split(y);
    assert Hops([x]) == Split(x);
  }

  // ---------------------------------------------------------------- forwarding

  // httputil.ProxyRequest: the inbound request and the outbound headers, from
  // which the inbound forwarding headers have been stripped.
  class ProxyRequest {
    const inbound: Request
    var forwardedFor: seq<string>
    var forwardedHost: seq<string>
    var forwardedProto: seq<string>

    constructor (r: Request)
      ensures inbound == r && forwardedFor == [] && forwardedHost == [] && forwardedProto == []
    {
      inbound := r;
      forwardedFor, forwardedHost, forwardedProto := [], [], [];
    }

    // The library's contract: the peer's host is appended to the outbound list, or
    // the list is dropped when there is no peer address to append.
    method SetXForwarded<A>(net: Network<A>)
      modifies this
      ensures forwardedFor == Appended(net, old(forwardedFor), inbound.remoteAddr)
      ensures forwardedHost == [inbound.host]
      ensures forwardedProto == [Scheme(inbound)]
    {
      forwardedFor := Appended(net, forwardedFor, inbound.remoteAddr);
      forwardedHost := [inbound.host];
      forwardedProto := [Scheme(inbound)];
    }

    // From an untrusted peer nothing of the inbound headers survives: the list is the
    // peer alone and the scheme that of the connection. From a trusted one the list is
    // kept and the peer appended, and a scheme is kept if there is one.
    method SetForwarded<A>(net: Network<A>)
      requires forwardedFor == []
      modifies this
      ensures var split := net.splitHostPort(inbound.remoteAddr);
              var host := if split.Some? then split.value else inbound.remoteAddr;
              var parsed := net.parseAddr(host);
              var trusted := parsed.Some? && net.trusted(net.unmap(parsed.value));
              && forwardedFor == (if split.None? then []
                                  else if trusted && inbound.forwardedFor != [] then [Join(inbound.forwardedFor) + ", " + host]
                                  else [host])
              && (trusted && IpPort(net, inbound.remoteAddr) ==>
                    Claimed(net, forwardedFor) == Claimed(net, inbound.forwardedFor) + [Some(net.unmap(parsed.value))])
              && forwardedProto == [if trusted && inbound.forwardedProto != [] && inbound.forwardedProto[0] != ""
                                    then inbound.forwardedProto[0]
                                    else if inbound.tls then "https" else "http"]
      ensures forwardedFor == OutboundFor(net, inbound)
      ensures forwardedHost == [inbound.host]
      ensures forwardedProto == [OutboundProto(net, inbound)]
    {
      var fromTrusted := Trusts(net, Peer(net, inbound));
      if fromTrusted {
        if |inbound.forwardedFor| > 0 {
          forwardedFor := inbound.forwardedFor;
        }
      }
      SetXForwarded(net);
      var proto := First(inbound.forwardedProto);
      if fromTrusted && proto != "" {
        forwardedProto := [proto];
      }
      if fromTrusted && IpPort(net, inbound.remoteAddr) {
        OutboundClaims(net, inbound);
      }
    }
  }

  // Header.Get
  function First(lines: seq<string>): string {
    if lines == [] then "" else lines[0]
  }

  function Scheme(r: Request): string {
    if r.tls then "https" else "http"
  }

  function Appended<A>(net: Network<A>, prior: seq<string>, remoteAddr: string): seq<string> {
    match net.splitHostPort(remoteAddr)
    case None => []
    case Some(host) => [if prior == [] then host else Join(prior) + ", " + host]
  }

  // X-Forwarded-For and X-Forwarded-Proto on the way out.
  function OutboundFor<A>(net: Network<A>, r: Request): seq<string> {
    Appended(net, if Trusts(net, Peer(net, r)) then r.forwardedFor else [], r.remoteAddr)
  }

  function OutboundProto<A>(net: Network<A>, r: Request): string {
    if Trusts(net, Peer(net, r)) && First(r.forwardedProto) != "" then First(r.forwardedProto) else Scheme(r)
  }

  // One balancer on the way: the address it is seen at by the next, the Host it
  // rewrites the request to, and whether its connection to the next is TLS.
  datatype Hop = Hop(self: string, host: string, tls: bool)

  ghost predicate TrustedHop<A>(net: Network<A>, hop: Hop) {
    Trusts(net, Address(net, HostOnly(net, hop.self)))
  }

  // The request the next balancer receives.
  function Forward<A>(net: Network<A>, r: Request, hop: Hop): (next: Request)
    ensures next.remoteAddr == hop.self
  {
    Request(hop.self, hop.host, hop.tls, OutboundFor(net, r), [OutboundProto(net, r)])
  }

  // The request as it arrives after passing the balancers at `route`, in order.
  function Relay<A>(net: Network<A>, r: Request, route: seq<Hop>): Request
    decreases |route|
  {
    if route == [] then r else Relay(net, Forward(net, r, route[0]), route[1..])
  }

  // RemoteAddr is ip:port: it splits, the host parses, and the host reads back as
  // the same address when it stands as one member of a header list.
  ghost predicate IpPort<A>(net: Network<A>, remoteAddr: string) {
    match net.splitHostPort(remoteAddr)
    case None => false
    case Some(host) =>
      && Address(net, host).Some?
      && ',' !in host
      && Address(net, TrimSpace(host)) == Address(net, host)
  }

  // Joining field lines with ", " leaves the addresses they claim as they were.
  lemma {:induction false} JoinKeepsClaims<A>(net: Network<A>, lines: seq<string>, last: string)
    requires lines != []
    ensures Claimed(net, [Join(lines) + ", " + last]) == Claimed(net, lines + [last])
  {
    var line := Join(lines) + ", " + last;
    assert line == Join(lines) + "," + (" " + last);
    CommaSpace(net, Join(lines), last);
    JoinedClaims(net, lines);
    ClaimedConcat(net, lines, [last]);
  }

  lemma BlankIsTrimmed(text: string)
    ensures TrimSpace(" " + text) == TrimSpace(text)
  {
    assert (" " + text)[1..] == text;
  }

  // A blank before a list of members is trimmed away.
  lemma PaddingIsTrimmed<A>(net: Network<A>, b: string)
    ensures Read(net, Split(" " + b)) == Read(net, Split(b))
  {
    assert (" " + b)[1..] == b;
    BlankIsTrimmed(Split(b)[0]);
    assert Split(" " + b) == [" " + Split(b)[0]] + Split(b)[1..];
  }

  // ", " separates list members just as "," does.
  lemma CommaSpace<A>(net: Network<A>, a: string, b: string)
    ensures Claimed(net, [a + ", " + b]) == Claimed(net, [a]) + Claimed(net, [b])
  {
    assert a + ", " + b == a + "," + (" " + b);
    SplitAtComma(a, " " + b);
    PaddingIsTrimmed(net, b);
    OneLine(a + ", " + b);
    OneLine(a);
    OneLine(b);
    ReadConcat(net, Split(a), Split(" " + b));
  }

  lemma OneLine(line: string)
    ensures Hops([line]) == Split(line)
  {
    assert [line][..0] == [];
  }

  lemma {:induction false} JoinedClaims<A>(net: Network<A>, lines: seq<string>)
    requires lines != []
    ensures Claimed(net, [Join(lines)]) == Claimed(net, lines)
  {
    if |lines| == 1 {
      assert lines == [lines[0]];
    } else {
      CommaSpace(net, lines[0], Join(lines[1..]));
      JoinedClaims(net, lines[1..]);
      ClaimedConcat(net, [lines[0]], lines[1..]);
      assert [lines[0]] + lines[1..] == lines;
    }
  }

  lemma HostClaimsItself<A>(net: Network<A>, remoteAddr: string)
    requires IpPort(net, remoteAddr)
    ensures Claimed(net, [net.splitHostPort(remoteAddr).value]) == [Address(net, HostOnly(net, remoteAddr))]
  {
    var host := net.splitHostPort(remoteAddr).value;
    OneLine(host);
    SplitWithoutComma(host);
  }

  // What a trusted peer is known to have claimed goes out with the peer appended.
  lemma OutboundClaims<A>(net: Network<A>, r: Request)
    requires IpPort(net, r.remoteAddr) && Trusts(net, Peer(net, r))
    ensures Claimed(net, OutboundFor(net, r)) == Claimed(net, r.forwardedFor) + [Peer(net, r)]
  {
    var host := net.splitHostPort(r.remoteAddr).value;
    HostClaimsItself(net, r.remoteAddr);
    if r.forwardedFor == [] {
      assert Claimed(net, []) == [];
    } else {
      JoinKeepsClaims(net, r.forwardedFor, host);
      ClaimedConcat(net, r.forwardedFor, [host]);
    }
  }

  // One hop: the next balancer, reached from a trusted address, resolves the client
  // its predecessor resolved, whatever X-Forwarded-For arrived there.
  lemma ClientSurvivesHop<A>(net: Network<A>, r: Request, hop: Hop)
    requires IpPort(net, r.remoteAddr) && TrustedHop(net, hop)
    ensures Client(net, Forward(net, r, hop)) == Client(net, r)
  {
    var peer := Peer(net, r);
    var seen := Address(net, HostOnly(net, hop.self)).value;
    HostClaimsItself(net, r.remoteAddr);
    if Trusts(net, peer) {
      OutboundClaims(net, r);
      WalkPrefix(net, seen, Claimed(net, r.forwardedFor), [peer]);
      assert [peer][..0] == [];
      assert Walk(net, seen, [peer]) == peer.value;
    }
  }

  // A chain of any length: the client resolved at the end is the one resolved at
  // the start.
  lemma {:induction false} ClientSurvivesChain<A>(net: Network<A>, r: Request, route: seq<Hop>)
    requires IpPort(net, r.remoteAddr)
    requires forall i | 0 <= i < |route| :: IpPort(net, route[i].self) && TrustedHop(net, route[i])
    ensures Client(net, Relay(net, r, route)) == Client(net, r)
    decreases |route|
  {
    if route != [] {
      ClientSurvivesHop(net, r, route[0]);
      ClientSurvivesChain(net, Forward(net, r, route[0]), route[1..]);
    }
  }

  // The text is another matter. A direct, untrusted caller is returned as the raw
  // host text, later balancers return the canonical form: the sticky-routing key
  // is the same all along the chain exactly when the peer was trusted or its
  // address was written in canonical form to begin with.
  lemma KeySurvivesChainIff<A>(net: Network<A>, r: Request, route: seq<Hop>)
    requires route != []
    requires IpPort(net, r.remoteAddr)
    requires forall i | 0 <= i < |route| :: IpPort(net, route[i].self) && TrustedHop(net, route[i])
    ensures ClientText(net, Relay(net, r, route)) == ClientText(net, r) <==>
            Trusts(net, Peer(net, r)) || net.format(Peer(net, r).value) == HostOnly(net, r.remoteAddr)
  {
    ClientSurvivesChain(net, r, route);
    RelayArrivesFromLast(net, r, route);
  }

  lemma {:induction false} RelayArrivesFromLast<A>(net: Network<A>, r: Request, route: seq<Hop>)
    requires route != []
    ensures Relay(net, r, route).remoteAddr == route[|route| - 1].self
    decreases |route|
  {
    if |route| > 1 {
      RelayArrivesFromLast(net, Forward(net, r, route[0]), route[1..]);
    }
  }

  const MAPPED := "::ffff:9.9.9.9"
  const DOTTED := "9.9.9.9"
  const BALANCER := "10.0.0.5"
  const MAPPED_PEER := "[::ffff:9.9.9.9]:4711"
  const BALANCER_PEER := "10.0.0.5:443"

  // A network of a balancer and an IPv4 client, which can also be written as an
  // IPv4-mapped IPv6 address.
  function DualStack(): Network<nat> {
    Network(
      text => if text == MAPPED then Some(6) else if text == DOTTED then Some(4)
              else if text == BALANCER then Some(1) else None,
      a => if a == 6 then 4 else a,
      a => if a == 6 then MAPPED else if a == 4 then DOTTED else BALANCER,
      hostport => if hostport == MAPPED_PEER then Some(MAPPED)
                  else if hostport == BALANCER_PEER then Some(BALANCER) else None,
      a => a == 1)
  }

  lemma DualStackPeers()
    ensures var net := DualStack();
            && HostOnly(net, MAPPED_PEER) == MAPPED && Address(net, MAPPED) == Some(4)
            && HostOnly(net, BALANCER_PEER) == BALANCER && Address(net, BALANCER) == Some(1)
            && IpPort(net, MAPPED_PEER) && IpPort(net, BALANCER_PEER)
  {
    assert |MAPPED_PEER| != |BALANCER_PEER| && |MAPPED| != |BALANCER| && |DOTTED| != |BALANCER|;
    NothingToTrim(MAPPED);
    NothingToTrim(BALANCER);
  }

  lemma NothingToTrim(text: string)
    requires text != "" && !IsSpace(text[0]) && !IsSpace(text[|text| - 1])
    ensures TrimSpace(text) == text
  {
  }

  // And an input on which the key changes: a caller known by the mapped form.
  lemma MappedPeerChangesKey()
    ensures var net, hop := DualStack(), Hop(BALANCER_PEER, "backend", false);
            var r := Request(MAPPED_PEER, "example.org", true, [], []);
            && IpPort(net, r.remoteAddr) && IpPort(net, hop.self) && TrustedHop(net, hop)
            && ClientText(net, r) == MAPPED
            && ClientText(net, Forward(net, r, hop)) == DOTTED
  {
    var net, hop := DualStack(), Hop(BALANCER_PEER, "backend", false);
    var r := Request(MAPPED_PEER, "example.org", true, [], []);
    DualStackPeers();
    ClientSurvivesHop(net, r, hop);
    assert Client(net, r) == Some(4);
  }

  // The scheme chosen by the first balancer reaches the last one unchanged.
  lemma {:induction false} SchemeSurvivesChain<A>(net: Network<A>, r: Request, route: seq<Hop>)
    requires forall i | 0 <= i < |route| :: TrustedHop(net, route[i])
    ensures OutboundProto(net, Relay(net, r, route)) == OutboundProto(net, r)
    decreases |route|
  {
    if route != [] {
      SchemeSurvivesChain(net, Forward(net, r, route[0]), route[1..]);
    }
  }
}
