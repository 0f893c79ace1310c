/** One run of the recurring registration task `registerTask.run`
    (mod/core/server.js, lines 81-96): for every configured gateway, a
    challenge-response registration attempt against its host and one against
    each of its registries. */
module Registration {
  import opened Wrappers

  /** A gateway record of the configuration; `host` and `registries` may be
      undefined. Its `metadata`, read only by log lines, is not modelled. */
  datatype Gateway = Gateway(
    username: string,
    host: Option<string>,
    transport: string,
    registries: Option<seq<string>>)

  /** The arguments of one `requestChallenge(username, host, transport)` call. */
  datatype Attempt = Attempt(username: string, host: string, transport: string)

  /** The attempt against the primary host, if the gateway has one. */
  function PrimaryAttempts(gw: Gateway): seq<Attempt>
  {
    if gw.host.Some? then [Attempt(gw.username, gw.host.value, gw.transport)] else []
  }

  /** One attempt per host of `hosts`, in list order, with the gateway's
      credentials and transport. */
  function RegistryAttempts(gw: Gateway, hosts: seq<string>): (r: seq<Attempt>)
    ensures |r| == |hosts|
    decreases |hosts|
  {
    if hosts == [] then []
    else
      var n := |hosts| - 1;
      RegistryAttempts(gw, hosts[..n]) + [Attempt(gw.username, hosts[n], gw.transport)]
  }

  /** The `j`-th registry attempt is against the `j`-th registry, with the
      gateway's username and transport. */
  lemma {:induction false} RegistryAttemptsAt(gw: Gateway, hosts: seq<string>, j: nat)
    requires j < |hosts|
    ensures RegistryAttempts(gw, hosts)[j] == Attempt(gw.username, hosts[j], gw.transport)
    decreases |hosts|
  {
    var n := |hosts| - 1;
    if j < n {
      assert hosts[..n][j] == hosts[j];
      RegistryAttemptsAt(gw, hosts[..n], j);
    }
  }

  /** The attempts of one gateway in one tick: the primary host first, then
      the registries. An undefined host skips only the primary attempt. */
  function GatewayAttempts(gw: Gateway): seq<Attempt>
  {
    PrimaryAttempts(gw) + (if gw.registries.Some? then RegistryAttempts(gw, gw.registries.value) else [])
  }

  /** The number of `requestChallenge` calls one gateway receives per tick. */
  function AttemptCount(gw: Gateway): nat
  {
    (if gw.host.Some? then 1 else 0) + (if gw.registries.Some? then |gw.registries.value| else 0)
  }

  /** An attempt belongs to a gateway when it carries the gateway's username
      and transport and names its host or one of its registries. */
  predicate BelongsTo(a: Attempt, gw: Gateway)
  {
    && a.username == gw.username
    && a.transport == gw.transport
    && (gw.host == Some(a.host) || (gw.registries.Some? && a.host in gw.registries.value))
  }

  /** The shape of one gateway's attempts: the count, the primary attempt in
      front, then the registries in order; every attempt belongs to it. */
  lemma GatewayAttemptsShape(gw: Gateway)
    ensures |GatewayAttempts(gw)| == AttemptCount(gw)
    ensures gw.host.Some? ==> GatewayAttempts(gw)[0] == Attempt(gw.username, gw.host.value, gw.transport)
    ensures gw.registries.Some? ==>
      var p := |PrimaryAttempts(gw)|;
      forall j | 0 <= j < |gw.registries.value| ::
        GatewayAttempts(gw)[p + j] == Attempt(gw.username, gw.registries.value[j], gw.transport)
    ensures forall a | a in GatewayAttempts(gw) :: BelongsTo(a, gw)
  {
    var r := GatewayAttempts(gw);
    var p := |PrimaryAttempts(gw)|;
    if gw.registries.Some? {
      var hosts := gw.registries.value;
      forall j | 0 <= j < |hosts| ensures r[p + j] == Attempt(gw.username, hosts[j], gw.transport) {
        RegistryAttemptsAt(gw, hosts, j);
      }
    }
    forall a | a in r ensures BelongsTo(a, gw) {
      var k :| 0 <= k < |r| && r[k] == a;
      if k >= p {
        var hosts := gw.registries.value;
        RegistryAttemptsAt(gw, hosts, k - p);
      }
    }
  }


  /** A gateway without a host but with registries still gets exactly one
      attempt per registry, in list order; the `continue` fires only when the
      registries are undefined. */
  lemma MissingHostKeepsRegistries(gw: Gateway)
    requires gw.host.None?
    ensures gw.registries.Some? ==> GatewayAttempts(gw) == RegistryAttempts(gw, gw.registries.value)
    ensures gw.registries.None? ==> GatewayAttempts(gw) == []
  {
  }

  /** The blocks `f(x)` of the elements of `xs`, concatenated in list order. */
  function FlatMap<T, U>(f: T -> seq<U>, xs: seq<T>): seq<U>
    decreases |xs|
  {
    if xs == [] then []
    else
      var n := |xs| - 1;
      FlatMap(f, xs[..n]) + f(xs[n])
  }

  lemma FlatMapSnoc<T, U>(f: T -> seq<U>, xs: seq<T>, x: T)
    ensures FlatMap(f, xs + [x]) == FlatMap(f, xs) + f(x)
  {
    var g := xs + [x];
    assert g[..|g| - 1] == xs;
  }

  lemma {:induction false} FlatMapAppend<T, U>(f: T -> seq<U>, a: seq<T>, b: seq<T>)
    ensures FlatMap(f, a + b) == FlatMap(f, a) + FlatMap(f, b)
    decreases |b|
  {
    if b == [] {
      assert a + b == a;
    } else {
      var n := |b| - 1;
      var init, last := b[..n], b[n];
      assert a + b == (a + init) + [last];
      assert b == init + [last];
      FlatMapSnoc(f, a + init, last);
      FlatMapSnoc(f, init, last);
      FlatMapAppend(f, a, init);
    }
  }

  /** The block of element `i` sits right after the blocks of the elements
      before it. */
  lemma FlatMapBlock<T, U>(f: T -> seq<U>, xs: seq<T>, i: nat)
    requires i < |xs|
    ensures |FlatMap(f, xs[..i])| + |f(xs[i])| == |FlatMap(f, xs[..i + 1])|
    ensures |FlatMap(f, xs[..i + 1])| <= |FlatMap(f, xs)|
    ensures FlatMap(f, xs)[|FlatMap(f, xs[..i])|..|FlatMap(f, xs[..i + 1])|] == f(xs[i])
  {
    var upto, post := xs[..i + 1], xs[i + 1..];
    assert upto == xs[..i] + [xs[i]];
    FlatMapSnoc(f, xs[..i], xs[i]);
    assert xs == upto + post;
    FlatMapAppend(f, upto, post);
  }

  /** All attempts of one tick, gateway by gateway in list order. */
  function TickAttempts(gateways: seq<Gateway>): seq<Attempt>
  {
    FlatMap(GatewayAttempts, gateways)
  }

  /** A tick over a list with one more gateway issues that gateway's
      attempts after the others. */
  lemma TickAttemptsSnoc(gateways: seq<Gateway>, gw: Gateway)
    ensures TickAttempts(gateways + [gw]) == TickAttempts(gateways) + GatewayAttempts(gw)
  {
    FlatMapSnoc(GatewayAttempts, gateways, gw);
  }

  /** The attempts of a concatenated gateway list are those of the first part
      followed by those of the second. */
  lemma TickAttemptsAppend(a: seq<Gateway>, b: seq<Gateway>)
    ensures TickAttempts(a + b) == TickAttempts(a) + TickAttempts(b)
  {
    FlatMapAppend(GatewayAttempts, a, b);
  }

  /** Where the attempts of gateway `i` start in the tick. */
  function Offset(gateways: seq<Gateway>, i: nat): nat
    requires i <= |gateways|
  {
    |TickAttempts(gateways[..i])|
  }

  /** The attempts of gateway `i` form one contiguous block, at its offset, and
      the next gateway's block starts right after it. */
  lemma GatewayBlock(gateways: seq<Gateway>, i: nat)
    requires i < |gateways|
    ensures Offset(gateways, i) + |GatewayAttempts(gateways[i])| == Offset(gateways, i + 1)
    ensures Offset(gateways, i + 1) <= |TickAttempts(gateways)|
    ensures TickAttempts(gateways)[Offset(gateways, i)..Offset(gateways, i + 1)] == GatewayAttempts(gateways[i])
  {
    FlatMapBlock(GatewayAttempts, gateways, i);
  }

  /** Gateways are served in list order: every attempt of an earlier gateway
      precedes every attempt of a later one. */
  lemma {:induction false} OffsetsOrdered(gateways: seq<Gateway>, i: nat, k: nat)
    requires i < k <= |gateways|
    ensures Offset(gateways, i + 1) <= Offset(gateways, k)
    decreases k - i
  {
    GatewayBlock(gateways, i);
    if i + 1 < k {
      GatewayBlock(gateways, i + 1);
      OffsetsOrdered(gateways, i + 1, k);
    }
  }

  /** The number of attempts in a tick is the sum of the per-gateway counts. */
  function TotalCount(gateways: seq<Gateway>): nat
    decreases |gateways|
  {
    if gateways == [] then 0
    else
      var n := |gateways| - 1;
      TotalCount(gateways[..n]) + AttemptCount(gateways[n])
  }

  lemma {:induction false} TickAttemptsCount(gateways: seq<Gateway>)
    ensures |TickAttempts(gateways)| == TotalCount(gateways)
    decreases |gateways|
  {
    if gateways != [] {
      var n := |gateways| - 1;
      GatewayAttemptsShape(gateways[n]);
      TickAttemptsCount(gateways[..n]);
    }
  }

  /** Every attempt of a tick belongs to some listed gateway: only the host
      varies, and it is that gateway's host or one of its registries. */
  lemma {:induction false} TickAttemptsBelong(gateways: seq<Gateway>, a: Attempt)
    requires a in TickAttempts(gateways)
    ensures exists i | 0 <= i < |gateways| :: BelongsTo(a, gateways[i])
    decreases |gateways|
  {
    var n := |gateways| - 1;
    GatewayAttemptsShape(gateways[n]);
    if a !in GatewayAttempts(gateways[n]) {
      TickAttemptsBelong(gateways[..n], a);
      var i :| 0 <= i < n && BelongsTo(a, gateways[..n][i]);
      assert BelongsTo(a, gateways[i]);
    }
  }

  /** The registration helper, reduced to the record of the calls it receives. */
  class RegistryHelper {
    var requests: seq<Attempt>

    constructor ()
      ensures requests == []
    {
      requests := [];
    }

    method RequestChallenge(username: string, host: string, transport: string)
      modifies this
      ensures requests == old(requests) + [Attempt(username, host, transport)]
    {
      requests := requests + [Attempt(username, host, transport)];
    }
  }

  /** The body of the task's loop for one gateway (the attempt against its
      host, then `continue` when it has no registries, else one attempt per
      registry): the helper receives exactly `GatewayAttempts(gateway)`. */
  method RegisterGateway(helper: RegistryHelper, gateway: Gateway)
    modifies helper
    ensures helper.requests == old(helper.requests) + GatewayAttempts(gateway)
  {
    ghost var primed := old(helper.requests) + PrimaryAttempts(gateway);
    if gateway.host.Some? {
      helper.RequestChallenge(gateway.username, gateway.host.value, gateway.transport);
    }
    assert helper.requests == primed;
    if gateway.registries.None? {
      assert GatewayAttempts(gateway) == PrimaryAttempts(gateway) + [];
      return;
    }
    var hosts := gateway.registries.value;
    for j := 0 to |hosts|
      invariant helper.requests == primed + RegistryAttempts(gateway, hosts[..j])
    {
      ghost var done := RegistryAttempts(gateway, hosts[..j]);
      assert hosts[..j + 1][..j] == hosts[..j];
      assert RegistryAttempts(gateway, hosts[..j + 1]) == done + [Attempt(gateway.username, hosts[j], gateway.transport)];
      helper.RequestChallenge(gateway.username, hosts[j], gateway.transport);
      assert helper.requests == primed + (done + [Attempt(gateway.username, hosts[j], gateway.transport)]);
    }
    assert hosts[..|hosts|] == hosts;
  }

  /** One tick of the registration task: the helper receives exactly the
      attempts of `TickAttempts(gateways)`, in that order. */
  method RunRegisterTask(helper: RegistryHelper, gateways: seq<Gateway>)
    modifies helper
    ensures helper.requests == old(helper.requests) + TickAttempts(gateways)
  {
    for i := 0 to |gateways|
      invariant helper.requests == old(helper.requests) + TickAttempts(gateways[..i])
    {
      assert gateways[..i + 1] == gateways[..i] + [gateways[i]];
      TickAttemptsSnoc(gateways[..i], gateways[i]);
      RegisterGateway(helper, gateways[i]);
    }
    assert gateways[..|gateways|] == gateways;
  }
}
