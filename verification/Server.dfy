/**
 The handler of a snapshot (internal/hub/snapshots.go): credential, rate, node binding,
 validation and storage, in this order, and success only after the commit.
 */
module Server {
  import opened Wrappers
  import opened Model
  import opened Validation
  import Tables
  import Credentials
  import Hub
  import Ingestion
  import Ledger
  import RateLimiter

  const LIMIT: int := 600

  // The node that presents a credential of 64 characters.
  ghost function Caller(nodes: map<string, Credentials.Cred>, credential: string): Option<string> {
    if |credential| == 64 then Credentials.Bearer(nodes, credential) else None
  }

  // It may make one more of its 600 calls a minute.
  ghost predicate Admitted(nodes: map<string, Credentials.Cred>, credential: string, rates: map<string, RateLimiter.Rate>, tick: int) {
    Caller(nodes, credential).Some? && RateLimiter.Admits(rates, "node/" + Caller(nodes, credential).value, 600, tick)
  }

  class Server {
    const registry: Credentials.Registry
    const limiter: RateLimiter.Limiter
    const hub: Hub.Hub

    // A new hub has no nodes.
    constructor ()
      ensures Valid() && registry.nodes == map[] && hub.Contents() == Ledger.Empty()
      ensures fresh(registry) && fresh(limiter) && fresh(hub)
    {
      registry := new Credentials.Registry();
      limiter := new RateLimiter.Limiter();
      hub := new Hub.Hub();
    }

    // The two halves of the nodes table agree on which nodes there are.
    ghost predicate Valid()
      reads this, registry, hub
    {
      hub.Valid() && Credentials.Distinct(registry.nodes) && registry.nodes.Keys == hub.nodes.Keys
    }

    // A node appears in both halves of its table, or, when its identifier is taken, nothing
    // changes.
    method CreateNode(id: string, secret: string, now: int) returns (ok: bool)
      requires Valid() && Credentials.Unused(registry.nodes, secret)
      modifies registry, hub
      ensures Valid()
      ensures ok <==> id !in old(registry.nodes)
      ensures registry.nodes == Credentials.Step(old(registry.nodes), Credentials.Create(id, secret, now))
      ensures hub.Contents() == Ledger.Step(old(hub.Contents()), Ledger.AddNode(id))
      ensures Ledger.Sound(old(hub.Contents())) ==> Ledger.Sound(hub.Contents())
    {
      hide Ledger.Sound, Credentials.Distinct, Credentials.Unused;
      ghost var st := hub.Contents();
      Credentials.StepDistinct(registry.nodes, Credentials.Create(id, secret, now));
      ok := registry.CreateNode(id, secret, now);
      if ok {
        hub.AddNode(id);
      }
      if Ledger.Sound(st) {
        Ledger.AddNodeKeeps(st, id);
      }
    }

    // A code is redeemed for a token, at its node, and the ledger is not touched.
    method Enroll(code: string, secret: string, now: int) returns (node: Option<string>)
      requires Valid() && Credentials.Unused(registry.nodes, secret)
      modifies registry
      ensures Valid()
      ensures registry.nodes == Credentials.Step(old(registry.nodes), Credentials.Enroll(code, secret, now))
      ensures node.Some? && |secret| == Credentials.SECRET_LENGTH ==> Credentials.Accepted(registry.nodes, secret, node.value)
    {
      var act := Credentials.Enroll(code, secret, now);
      Credentials.StepDistinct(registry.nodes, act);
      node := registry.EnrollNode(code, secret, now);
      if node.Some? {
        assert Credentials.Bears(registry.nodes, node.value, secret);
      }
    }

    // body is None when the request does not decode. tick is the clock of the limiter.
    method Snapshots(credential: string, body: Option<Snapshot>, backfill: bool, now: HubTime, tick: int) returns (status: int)
      requires Valid()
      modifies limiter, hub
      ensures Valid()
      ensures status in {200, 400, 401, 429, 500}
      ensures status == 401 <==> Caller(registry.nodes, credential).None?
      ensures limiter.rates
           == match Caller(registry.nodes, credential)
              case None => old(limiter.rates)
              case Some(id) => RateLimiter.After(old(limiter.rates), "node/" + id, tick)
      ensures status == 429 <==>
                && Caller(registry.nodes, credential).Some?
                && !RateLimiter.Admits(old(limiter.rates), "node/" + Caller(registry.nodes, credential).value, 600, tick)
      ensures status == 400 <==>
                && Admitted(registry.nodes, credential, old(limiter.rates), tick)
                && !(body.Some? && Caller(registry.nodes, credential) == Some(body.value.node) && Acceptable(body.value, now))
      ensures status == 200 ==>
                && body.Some?
                && Credentials.Accepted(registry.nodes, credential, body.value.node)
                && Ingestion.Ingest(old(hub.Contents()), body.value, backfill, now) == Ok(hub.Contents())
      ensures status != 200 ==> hub.Contents() == old(hub.Contents())
      ensures Ledger.Sound(old(hub.Contents())) && (body.Some? ==> Ledger.Consistent(old(hub.samples), body.value)) ==>
                && Ledger.Sound(hub.Contents())
                && (status == 200 <==>
                      && Admitted(registry.nodes, credential, old(limiter.rates), tick)
                      && body.Some? && Caller(registry.nodes, credential) == Some(body.value.node) && Acceptable(body.value, now))
    {
      hide Acceptable, Ingestion.Ingest, Ledger.Sound, Ledger.Consistent, Credentials.Distinct, RateLimiter.After, RateLimiter.Admits;
      ghost var st := hub.Contents();
      var id := registry.FindBearer(credential);
      if id.None? {
        return 401;
      }
      var allowed := limiter.Allowed("node/" + id.value, LIMIT, tick);
      if !allowed {
        return 429;
      }
      if body.None? || body.value.node != id.value {
        return 400;
      }
      var s := body.value;
      var acceptable := Validate(s, now);
      if !acceptable {
        return 400;
      }
      var r := hub.Ingest(s, backfill, now);
      Known(st, s, backfill, now);
      if Ledger.Sound(st) && Ledger.Consistent(st.samples, s) {
        Ledger.StepKeeps(st, Ledger.Upload(s, backfill, now));
      }
      if r.Err? {
        return 500;
      }
      return 200;
    }
  }

  lemma Known(st: Tables.State, s: Snapshot, backfill: bool, now: HubTime)
    requires Acceptable(s, now) && s.node in st.nodes
    ensures Ledger.Sound(st) && Ledger.Consistent(st.samples, s) ==> Ingestion.Ingest(st, s, backfill, now).Ok?
    ensures Ingestion.Ingest(st, s, backfill, now).Ok? ==>
              Ingestion.Ingest(st, s, backfill, now).value.nodes.Keys == st.nodes.Keys
  {
    hide Acceptable, Ledger.Sound, Ledger.Consistent, Ingestion.StoreGpus, Ingestion.NewLive, Ingestion.NewlyMissing;
    if Ledger.Sound(st) && Ledger.Consistent(st.samples, s) {
      Ledger.OnlyTheGateRefuses(st, s, backfill, now);
    }
    AcceptedTime(s, now);
  }
}
