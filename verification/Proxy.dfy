// The proxy's retry loop. The balancer, the backends and the client's patience are
// a world that answers, attempt by attempt, in any way it likes.
module Proxy {
  import opened Domain
  import opened Wrappers

  newtype byte = x: int | 0 <= x < 256

  // What happens at attempt k: whether the client has gone, which backend the
  // balancer picks, and whether that backend produces a response. An unreachable
  // backend is reported to the error handler before anything is written.
  datatype World<!B> = World(
    cancelled: nat -> bool,
    select: nat -> Option<B>,
    serves: nat -> bool)

  datatype Response<B> = FromBackend(b: B) | Error(status: nat, text: string)

  function UnreadableBody<B>(): Response<B> {
    Error(400, "failed to read request body")
  }

  function NoneHealthy<B>(): Response<B> {
    Error(503, "no healthy backends registered")
  }

  function NoneServed<B>(): Response<B> {
    Error(503, "no healthy backend could serve the request")
  }

  // The inbound body: absent, readable, or failing while it is read.
  datatype Body = Absent | Readable(bytes: seq<byte>) | Broken

  function Payload(inbound: Body): seq<byte> {
    if inbound.Readable? then inbound.bytes else []
  }

  datatype Attempt<B> = Attempt(target: B, body: seq<byte>)

  // How a request ends, after how many failed attempts.
  datatype End = Served(failed: nat) | Gone(failed: nat) | NoBackend(failed: nat) | Exhausted(failed: nat)
  {
    function Attempts(): nat {
      if Served? then failed + 1 else failed
    }
  }

  // Handler.maxRetriesFor
  function MaxRetriesFor(verb: string, maxRetries: int): int {
    if verb == "POST" || verb == "PATCH" then 0 else maxRetries
  }

  // The loop from attempt k on, with `limit` retries allowed.
  function Play<B>(world: World<B>, limit: int, k: nat): (end: End)
    ensures k <= end.failed
    decreases limit - k
  {
    if k > limit then Exhausted(k)
    else if world.cancelled(k) then Gone(k)
    else if world.select(k).None? then NoBackend(k)
    else if world.serves(k) then Served(k)
    else Play(world, limit, k + 1)
  }

  // Attempt k is made and comes to nothing.
  ghost predicate Fails<B>(world: World<B>, k: nat) {
    !world.cancelled(k) && world.select(k).Some? && !world.serves(k)
  }

  ghost predicate Serves<B>(world: World<B>, k: nat) {
    !world.cancelled(k) && world.select(k).Some? && world.serves(k)
  }

  // What `n` attempts and the responses `sent` have to do with the world, when `limit`
  // retries are allowed: the first attempt that serves ends the request, before it all
  // have failed, and one of four things has happened. They exclude each other.
  ghost predicate Outcome<B>(world: World<B>, limit: int, n: nat, sent: seq<Response<B>>) {
    || (0 < n <= limit + 1 && Serves(world, n - 1) && FirstFail(world, n - 1)
        && sent == [FromBackend(world.select(n - 1).value)])
    || (n <= limit && world.cancelled(n) && FirstFail(world, n) && sent == [])
    || (n <= limit && !world.cancelled(n) && world.select(n).None? && FirstFail(world, n)
        && sent == [Error(503, "no healthy backends registered")])
    || (n == (if limit < 0 then 0 else limit + 1) && FirstFail(world, n)
        && sent == [Error(503, "no healthy backend could serve the request")])
  }

  ghost predicate FirstFail<B>(world: World<B>, n: nat) {
    forall k: nat | k < n :: Fails(world, k)
  }

  // Some attempt within the limit serves, and all before it fail.
  ghost predicate ServedWithin<B>(world: World<B>, limit: int) {
    exists k: nat :: k <= limit && Serves(world, k) && FirstFail(world, k)
  }

  class Request {
    const verb: string
    var body: seq<byte>             // what is left to read
    var getBody: Option<seq<byte>>  // the buffered body, once there is one

    constructor (verb: string)
      ensures this.verb == verb && body == [] && getBody == None
    {
      this.verb := verb;
      body, getBody := [], None;
    }
  }

  class ResponseWriter {
    var written: seq<Response<Backend>>

    constructor ()
      ensures written == []
    {
      written := [];
    }
  }

  // atomic.Int32.Add, which wraps.
  function Add32(c: int32, d: int): int32 {
    (c + d + TWO_31) % TWO_32 - TWO_31
  }

  class Handler {
    const maxRetries: int

    constructor (maxRetries: int)
      ensures this.maxRetries == maxRetries
    {
      this.maxRetries := maxRetries;
    }

    // One attempt. The reverse proxy drains the body whatever happens; the connection
    // is counted for the length of the attempt only: `during` is the counter while the
    // request is with the backend.
    method ProxyOnce(w: ResponseWriter, r: Request, target: Backend, serves: bool)
      returns (served: bool, got: seq<byte>, ghost during: int32)
      modifies w`written, r`body, target`activeConnectionsNo
      ensures served == serves && got == old(r.body) && r.body == []
      ensures w.written == old(w.written) + if served then [FromBackend(target)] else []
      ensures during == if old(target.activeConnectionsNo) == TWO_31 - 1 then -TWO_31 else old(target.activeConnectionsNo) + 1
      ensures target.activeConnectionsNo == old(target.activeConnectionsNo)
    {
      target.activeConnectionsNo := Add32(target.activeConnectionsNo, 1);
      served, during := true, target.activeConnectionsNo;
      got := r.body;
      r.body := [];
      if serves {
        w.written := w.written + [FromBackend(target)];
      } else {
        served := false;
      }
      target.activeConnectionsNo := Add32(target.activeConnectionsNo, -1);
    }

    // What the client is sent in the end.
    ghost function Reply(world: World<Backend>, end: End): seq<Response<Backend>>
      requires end.Served? ==> world.select(end.failed).Some?
    {
      match end
      case Served(k) => [FromBackend(world.select(k).value)]
      case Gone(_) => []
      case NoBackend(_) => [NoneHealthy()]
      case Exhausted(_) => [NoneServed()]
    }

    // Each attempt went to the backend selected for it, with the whole body.
    ghost predicate AsSelected(world: World<Backend>, attempts: seq<Attempt<Backend>>, payload: seq<byte>) {
      forall k | 0 <= k < |attempts| ::
        world.select(k) == Some(attempts[k].target) && attempts[k].body == payload
    }

    lemma PlayedOut(world: World<Backend>, limit: int)
      ensures var end := Play(world, limit, 0);
              && (end.Served? ==> world.select(end.failed).Some?)
              && Outcome(world, limit, end.Attempts(), Reply(world, end))
              && (|Reply(world, end)| == 1 && Reply(world, end)[0].FromBackend? <==> ServedWithin(world, limit))
    {
      var end := Play(world, limit, 0);
      OneOutcome(world, limit, end);
      ServedIff(world, limit);
    }

    // The contract speaks of the world, the verb and maxRetries only: which attempts are
    // made, each with the whole body, and what the client is sent.
    method ServeHTTP(w: ResponseWriter, r: Request, inbound: Body, world: World<Backend>, backends: set<Backend>)
      returns (attempts: seq<Attempt<Backend>>)
      requires r.getBody == None && r.body == Payload(inbound)
      requires forall k :: world.select(k).Some? ==> world.select(k).value in backends
      modifies w`written, r, backends`activeConnectionsNo
      ensures old(w.written) <= w.written
      ensures var sent := w.written[|old(w.written)|..];
              var limit := if r.verb == "POST" || r.verb == "PATCH" then 0 else maxRetries;
              if inbound.Broken? then attempts == [] && sent == [Error(400, "failed to read request body")]
              else
                && Outcome(world, limit, |attempts|, sent)
                && (|sent| == 1 && sent[0].FromBackend? <==> ServedWithin(world, limit))
      ensures !inbound.Broken? ==>
                forall k | 0 <= k < |attempts| ::
                  && world.select(k) == Some(attempts[k].target)
                  && attempts[k].body == if inbound.Absent? then [] else inbound.bytes
      ensures forall b | b in backends :: b.activeConnectionsNo == old(b.activeConnectionsNo)
    {
      if !inbound.Absent? {
        if inbound.Broken? {
          w.written := w.written + [UnreadableBody()];
          return [];
        }
        r.getBody := Some(r.body);
      }
      attempts := Retry(w, r, inbound, world, backends);
      PlayedOut(world, MaxRetriesFor(r.verb, maxRetries));
    }

    // The retry loop of ServeHTTP.
    method Retry(w: ResponseWriter, r: Request, ghost inbound: Body, world: World<Backend>, backends: set<Backend>)
      returns (attempts: seq<Attempt<Backend>>)
      requires r.getBody == if inbound.Absent? then None else Some(Payload(inbound))
      requires inbound.Absent? ==> r.body == []
      requires forall k :: world.select(k).Some? ==> world.select(k).value in backends
      modifies w`written, r, backends`activeConnectionsNo
      ensures var end := Play(world, MaxRetriesFor(r.verb, maxRetries), 0);
              && |attempts| == end.Attempts()
              && AsSelected(world, attempts, Payload(inbound))
              && (end.Served? ==> world.select(end.failed).Some?)
              && w.written == old(w.written) + Reply(world, end)
      ensures forall b | b in backends :: b.activeConnectionsNo == old(b.activeConnectionsNo)
    {
      attempts := [];
      var limit := MaxRetriesFor(r.verb, maxRetries);
      ghost var end := Play(world, limit, 0);
      var attempt := 0;
      while attempt <= limit
        invariant Play(world, limit, attempt) == end
        invariant |attempts| == attempt
        invariant AsSelected(world, attempts, Payload(inbound))
        invariant w.written == old(w.written)
        invariant r.getBody == if inbound.Absent? then None else Some(Payload(inbound))
        invariant inbound.Absent? ==> r.body == []
        invariant forall b | b in backends :: b.activeConnectionsNo == old(b.activeConnectionsNo)
        decreases limit - attempt
      {
        if world.cancelled(attempt) {
          return;
        }
        if r.getBody.Some? {
          r.body := r.getBody.value;
        }
        var target := world.select(attempt);
        if target.None? {
          w.written := w.written + [NoneHealthy()];
          return;
        }
        var served, got, _ := ProxyOnce(w, r, target.value, world.serves(attempt));
        attempts := attempts + [Attempt(target.value, got)];
        if served {
          return;
        }
        attempt := attempt + 1;
      }
      w.written := w.written + [NoneServed()];
    }
  }

  // ---------------------------------------------------------------- what the loop amounts to

  // The request ends as `end` says exactly when every attempt before fails and the
  // next one is what it says, within the limit. So there is one outcome, the loop
  // stops at the first served attempt, and attempts never exceed 1 + limit.
  ghost predicate EndsAs<B>(world: World<B>, limit: int, end: End) {
    && (forall k: nat | k < end.failed :: Fails(world, k))
    && match end
       case Served(k) => k <= limit && !world.cancelled(k) && world.select(k).Some? && world.serves(k)
       case Gone(k) => k <= limit && world.cancelled(k)
       case NoBackend(k) => k <= limit && !world.cancelled(k) && world.select(k).None?
       case Exhausted(k) => k == if limit < 0 then 0 else limit + 1
  }

  lemma {:induction false} OneOutcome<B>(world: World<B>, limit: int, end: End)
    ensures Play(world, limit, 0) == end <==> EndsAs(world, limit, end)
  {
    PlayEnds(world, limit, 0);
    var played := Play(world, limit, 0);
    assert end.failed < played.failed ==> Fails(world, end.failed);
    assert EndsAs(world, limit, end) && played.failed < end.failed ==> Fails(world, played.failed);
  }

  // So there are never more attempts than retries plus one; a POST or PATCH, which
  // has no retries, is attempted once.
  lemma AttemptsWithinLimit<B>(world: World<B>, verb: string, maxRetries: int)
    ensures Play(world, maxRetries, 0).Attempts() <= if maxRetries < 0 then 0 else maxRetries + 1
    ensures verb == "POST" || verb == "PATCH" ==> Play(world, MaxRetriesFor(verb, maxRetries), 0).Attempts() <= 1
  {
    OneOutcome(world, maxRetries, Play(world, maxRetries, 0));
    OneOutcome(world, 0, Play(world, 0, 0));
  }

  lemma {:induction false} PlayEnds<B>(world: World<B>, limit: int, k: nat)
    requires k <= limit + 1 || k == 0
    requires forall j: nat | j < k :: Fails(world, j)
    ensures EndsAs(world, limit, Play(world, limit, k))
    decreases limit - k
  {
    if k <= limit && Fails(world, k) {
      PlayEnds(world, limit, k + 1);
    }
  }

  // A request is served exactly when some attempt within the limit would be and all
  // before it fail; then by the first such backend.
  lemma ServedIff<B>(world: World<B>, limit: int)
    ensures Play(world, limit, 0).Served? <==> ServedWithin(world, limit)
  {
    var end := Play(world, limit, 0);
    OneOutcome(world, limit, end);
    if k: nat :| k <= limit && Serves(world, k) && FirstFail(world, k) {
      OneOutcome(world, limit, Served(k));
    }
    if end.Served? {
      assert Serves(world, end.failed) && FirstFail(world, end.failed);
    }
  }

  // With a backend to try every time, nobody giving up and one that serves at attempt
  // i, the request is served by then.
  lemma ServedBy<B>(world: World<B>, limit: int, i: nat)
    requires i <= limit && Serves(world, i)
    requires forall j: nat | j < i :: !world.cancelled(j) && world.select(j).Some?
    ensures Play(world, limit, 0).Served? && Serves(world, Play(world, limit, 0).failed)
    ensures Play(world, limit, 0).failed <= i
  {
    var end := Play(world, limit, 0);
    OneOutcome(world, limit, end);
    assert end.failed > i ==> Fails(world, i);
  }
}
