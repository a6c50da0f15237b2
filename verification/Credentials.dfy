/**
 The life of a node's credentials (internal/hub/node_service.go, enrollment.go and
 snapshots.go). The hub stores hashes only; a hash is modelled as an injective wrapper.
 Fresh secrets come in as arguments. All of it runs under one lock, so a run is a
 sequence of acts.
 */
module Credentials {
  import opened Wrappers

  const CODE_LIFE: int := 15 * 60_000
  const SECRET_LENGTH: nat := 64

  datatype Stored = Empty | HashOf(secret: string)

  datatype Cred = Cred(token: Stored, code: Stored, expires: int)

  datatype Act =
    | Create(id: string, secret: string, now: int)
    | Issue(id: string, secret: string, now: int)
    | Revoke(id: string)
    | Enroll(code: string, secret: string, now: int)
    | Report(token: string, node: string)

  predicate Redeems(nodes: map<string, Cred>, id: string, code: string, now: int) {
    id in nodes && nodes[id].code == HashOf(code) && nodes[id].expires > now
  }

  // The node that a code can still be redeemed for, if there is one.
  ghost function Redeemer(nodes: map<string, Cred>, code: string, now: int): (r: Option<string>)
    ensures r.Some? ==> Redeems(nodes, r.value, code, now)
  {
    if id :| Redeems(nodes, id, code, now) then Some(id) else None
  }

  predicate Bears(nodes: map<string, Cred>, id: string, token: string) {
    id in nodes && nodes[id].token == HashOf(token)
  }

  // The node that a token was issued to, if there is one.
  ghost function Bearer(nodes: map<string, Cred>, token: string): (r: Option<string>)
    ensures r.Some? ==> Bears(nodes, r.value, token)
  {
    if id :| Bears(nodes, id, token) then Some(id) else None
  }

  // The node whose credentials an act sets, if it sets any.
  ghost function Concerned(nodes: map<string, Cred>, a: Act): Option<string> {
    match a
    case Create(id, _, _) => if id in nodes then None else Some(id)
    case Issue(id, _, _) => if id in nodes then Some(id) else None
    case Revoke(id) => if id in nodes then Some(id) else None
    case Enroll(code, _, now) => if |code| == SECRET_LENGTH then Redeemer(nodes, code, now) else None
    case Report(_, _) => None
  }

  function Outcome(a: Act): Cred {
    match a
    case Create(_, secret, now) => Cred(Empty, HashOf(secret), now + CODE_LIFE)
    case Issue(_, secret, now) => Cred(Empty, HashOf(secret), now + CODE_LIFE)
    case Revoke(_) => Cred(Empty, Empty, 0)
    case Enroll(_, secret, _) => Cred(HashOf(secret), Empty, 0)
    case Report(_, _) => Cred(Empty, Empty, 0)
  }

  ghost function Step(nodes: map<string, Cred>, a: Act): map<string, Cred> {
    var c := Concerned(nodes, a);
    if c.Some? then nodes[c.value := Outcome(a)] else nodes
  }

  // A snapshot passes the credential check and the check of its node.
  ghost predicate Accepted(nodes: map<string, Cred>, token: string, node: string) {
    |token| == SECRET_LENGTH && Bearer(nodes, token) == Some(node)
  }

  // No secret is stored for two nodes, so the lookups have one answer at most.
  ghost predicate Distinct(nodes: map<string, Cred>) {
    forall i, j :: i in nodes && j in nodes && i != j ==>
      && (nodes[i].code.HashOf? ==> nodes[i].code != nodes[j].code)
      && (nodes[i].token.HashOf? ==> nodes[i].token != nodes[j].token)
  }

  predicate Draws(a: Act) {
    a.Create? || a.Issue? || a.Enroll?
  }

  // The secret is stored nowhere yet, neither as a token nor as a code.
  ghost predicate Unused(nodes: map<string, Cred>, secret: string) {
    forall id :: id in nodes ==> nodes[id].token != HashOf(secret) && nodes[id].code != HashOf(secret)
  }

  // An act that draws an unused secret keeps the stored ones distinct, and only Create
  // brings a node.
  lemma StepDistinct(nodes: map<string, Cred>, a: Act)
    requires Distinct(nodes) && (Draws(a) ==> Unused(nodes, a.secret))
    ensures Distinct(Step(nodes, a))
    ensures Step(nodes, a).Keys == if a.Create? then nodes.Keys + {a.id} else nodes.Keys
  {
  }

  class Registry {
    var nodes: map<string, Cred>

    constructor ()
      ensures nodes == map[]
    {
      nodes := map[];
    }

    // Fails when the identifier is taken.
    method CreateNode(id: string, secret: string, now: int) returns (ok: bool)
      modifies this
      ensures nodes == Step(old(nodes), Create(id, secret, now))
      ensures ok <==> id !in old(nodes)
      ensures ok ==> forall code, t :: Redeems(nodes, id, code, t) <==> code == secret && t < now + 900_000
      ensures ok ==> forall token :: !Bears(nodes, id, token)
    {
      ok := id !in nodes;
      if ok {
        nodes := nodes[id := Cred(Empty, HashOf(secret), now + CODE_LIFE)];
      }
    }

    // The old token stops working at once.
    method IssueCode(id: string, secret: string, now: int) returns (found: bool)
      modifies this
      ensures nodes == Step(old(nodes), Issue(id, secret, now))
      ensures found <==> id in old(nodes)
      ensures found ==> forall code, t :: Redeems(nodes, id, code, t) <==> code == secret && t < now + 900_000
      ensures forall token :: !Bears(nodes, id, token)
    {
      found := id in nodes;
      if found {
        nodes := nodes[id := nodes[id].(token := Empty, code := HashOf(secret), expires := now + CODE_LIFE)];
      }
    }

    method RevokeNode(id: string) returns (found: bool)
      modifies this
      ensures nodes == Step(old(nodes), Revoke(id))
      ensures found <==> id in old(nodes)
      ensures forall token :: !Bears(nodes, id, token)
      ensures forall code, t :: !Redeems(nodes, id, code, t)
      ensures forall other :: other in old(nodes) && other != id ==> other in nodes && nodes[other] == old(nodes)[other]
    {
      found := id in nodes;
      if found {
        nodes := nodes[id := nodes[id].(token := Empty, code := Empty, expires := 0)];
      }
    }

    // Redeems a code for the token it is given.
    method EnrollNode(code: string, secret: string, now: int) returns (r: Option<string>)
      requires Distinct(nodes)
      modifies this
      ensures nodes == Step(old(nodes), Enroll(code, secret, now))
      ensures r.Some? <==> |code| == 64 && exists id :: Redeems(old(nodes), id, code, now)
      ensures r.Some? ==>
                && Redeems(old(nodes), r.value, code, now)
                && (forall token :: Bears(nodes, r.value, token) <==> token == secret)
                && (forall other, t :: !Redeems(nodes, r.value, other, t))
                && (forall other :: other in old(nodes) && other != r.value ==> other in nodes && nodes[other] == old(nodes)[other])
      ensures r.None? ==> nodes == old(nodes)
    {
      if |code| != SECRET_LENGTH {
        return None;
      }
      var found := set id | id in nodes && Redeems(nodes, id, code, now);
      assert forall id :: Redeems(nodes, id, code, now) ==> id in found;
      if found == {} {
        return None;
      }
      var id :| id in found;
      nodes := nodes[id := nodes[id].(token := HashOf(secret), code := Empty, expires := 0)];
      return Some(id);
    }

    // The node whose token this is.
    method FindBearer(token: string) returns (r: Option<string>)
      requires Distinct(nodes)
      ensures r == if |token| == SECRET_LENGTH then Bearer(nodes, token) else None
    {
      if |token| != SECRET_LENGTH {
        return None;
      }
      var found := set id | id in nodes && Bears(nodes, id, token);
      assert forall id :: Bears(nodes, id, token) ==> id in found;
      if found == {} {
        return None;
      }
      var id :| id in found;
      return Some(id);
    }
  }

  /******* Runs *******/

  ghost function Run(acts: seq<Act>): map<string, Cred> {
    if acts == [] then map[] else Step(Run(acts[..|acts| - 1]), acts[|acts| - 1])
  }

  ghost predicate Concerns(acts: seq<Act>, i: nat, id: string)
    requires i < |acts|
  {
    Concerned(Run(acts[..i]), acts[i]) == Some(id)
  }

  // Act i is the latest that set the credentials of the node.
  ghost predicate LatestFor(acts: seq<Act>, i: nat, id: string)
    requires i < |acts|
  {
    Concerns(acts, i, id) && forall j :: i < j < |acts| ==> !Concerns(acts, j, id)
  }

  // The credentials of a node are decided by the latest act that concerned it.
  lemma {:induction false} LatestDecides(acts: seq<Act>, id: string) returns (i: nat)
    requires id in Run(acts)
    ensures i < |acts| && LatestFor(acts, i, id) && Run(acts)[id] == Outcome(acts[i])
    decreases |acts|
  {
    var n := |acts| - 1;
    if Concerns(acts, n, id) {
      i := n;
    } else {
      i := LatestDecides(acts[..n], id);
      forall j | 0 <= j < n
        ensures acts[..n][..j] == acts[..j]
      {
      }
      assert Concerns(acts[..n], i, id) == Concerns(acts, i, id);
      forall j | i < j < |acts|
        ensures !Concerns(acts, j, id)
      {
        if j < n {
          assert !Concerns(acts[..n], j, id);
        }
      }
    }
  }

  // A node never holds a live token and a live code together.
  lemma {:induction false} NeverBoth(acts: seq<Act>, id: string)
    requires id in Run(acts)
    ensures Run(acts)[id].token == Empty || Run(acts)[id].code == Empty
  {
    var i := LatestDecides(acts, id);
  }

  // The node is revoked, or gets a new code.
  predicate Withdraws(a: Act, node: string) {
    (a.Revoke? && a.id == node) || (a.Issue? && a.id == node)
  }

  // A node that is known stays known.
  lemma {:induction false} StaysKnown(acts: seq<Act>, m: nat, n: nat, id: string)
    requires m <= n <= |acts| && id in Run(acts[..m])
    ensures id in Run(acts[..n])
    decreases n - m
  {
    if m < n {
      assert acts[..m + 1][..m] == acts[..m];
      StaysKnown(acts, m + 1, n, id);
    }
  }

  lemma KnownAfterwards(acts: seq<Act>, i: nat, id: string)
    requires i < |acts| && Concerns(acts, i, id)
    ensures id in Run(acts[..i + 1])
  {
    assert acts[..i + 1][..i] == acts[..i];
  }

  // Every snapshot that is accepted carries the token issued by the enrolment of that same
  // node, and since then nobody has revoked the node or given it a new code.
  lemma {:induction false} AcceptedIsCurrent(acts: seq<Act>, token: string, node: string) returns (i: nat)
    requires Accepted(Run(acts), token, node)
    ensures i < |acts| && acts[i].Enroll? && acts[i].secret == token && LatestFor(acts, i, node)
    ensures forall j :: i < j < |acts| ==> acts[j] != Revoke(node) && !(acts[j].Issue? && acts[j].id == node)
  {
    i := LatestDecides(acts, node);
    KnownAfterwards(acts, i, node);
    forall j | i < j < |acts|
      ensures !Withdraws(acts[j], node)
    {
      StaysKnown(acts, i + 1, j, node);
      assert !Concerns(acts, j, node);
    }
  }

  // A code is redeemed before it expires, by the node it was last issued for.
  lemma {:induction false} RedeemedInTime(acts: seq<Act>, n: nat, id: string) returns (i: nat)
    requires n < |acts| && acts[n].Enroll? && Concerns(acts, n, id)
    ensures i < n && LatestFor(acts[..n], i, id)
    ensures (acts[i].Create? || acts[i].Issue?) && acts[i].secret == acts[n].code && acts[n].now < acts[i].now + 900_000
  {
    i := LatestDecides(acts[..n], id);
  }

  // Secrets are random: no two acts are given the same one.
  ghost predicate FreshSecrets(acts: seq<Act>) {
    forall i, j :: 0 <= i < j < |acts| && Draws(acts[i]) && Draws(acts[j]) ==> acts[i].secret != acts[j].secret
  }

  // A code is redeemed at most once, whichever request comes first.
  lemma {:induction false} RedeemedOnce(acts: seq<Act>, m: nat, n: nat, id: string, other: string)
    requires FreshSecrets(acts) && m < n < |acts| && acts[m].Enroll? && acts[n].Enroll?
    requires Concerns(acts, m, id) && Concerns(acts, n, other)
    ensures acts[m].code != acts[n].code
  {
    var i := RedeemedInTime(acts, m, id);
    var j := RedeemedInTime(acts, n, other);
    assert acts[..m][..i] == acts[..i] && acts[..n][..j] == acts[..j] && acts[..n][..m] == acts[..m];
    assert Concerns(acts[..m], i, id) && Concerns(acts[..n], j, other);
    if id == other {
      assert Concerns(acts[..n], m, other);
      assert m <= j;
    }
    assert i != j;
  }

  // Fresh secrets keep the stored ones distinct, so each lookup has one answer.
  lemma {:induction false} StoredAreDistinct(acts: seq<Act>)
    requires FreshSecrets(acts)
    ensures Distinct(Run(acts))
  {
    var nodes := Run(acts);
    forall i, j | i in nodes && j in nodes && i != j
      ensures nodes[i].code.HashOf? ==> nodes[i].code != nodes[j].code
      ensures nodes[i].token.HashOf? ==> nodes[i].token != nodes[j].token
    {
      var m := LatestDecides(acts, i);
      var n := LatestDecides(acts, j);
      assert m != n;
    }
  }
  /******* What holds until it is withdrawn *******/

  // The act gives the node a code, and succeeds.
  ghost predicate Gives(acts: seq<Act>, i: nat, id: string)
    requires i < |acts|
  {
    (acts[i].Create? && acts[i].id == id && id !in Run(acts[..i])) || (acts[i].Issue? && acts[i].id == id && id in Run(acts[..i]))
  }

  // From act i to act n the node was not revoked, got no new code, and its code was not used.
  ghost predicate Untouched(acts: seq<Act>, i: nat, n: nat, id: string)
    requires i < n <= |acts| && (acts[i].Create? || acts[i].Issue?)
  {
    forall j :: i < j < n ==> !Withdraws(acts[j], id) && !(acts[j].Enroll? && acts[j].code == acts[i].secret)
  }

  lemma {:induction false} CodeWaits(acts: seq<Act>, i: nat, n: nat, id: string)
    requires i < n <= |acts| && Gives(acts, i, id) && Untouched(acts, i, n, id)
    ensures id in Run(acts[..n])
    ensures Run(acts[..n])[id].code == HashOf(acts[i].secret) && Run(acts[..n])[id].expires == acts[i].now + 900_000
    decreases n - i
  {
    assert acts[..n][..n - 1] == acts[..n - 1];
    if n > i + 1 {
      CodeWaits(acts, i, n - 1, id);
    }
  }

  lemma TheRedeemer(nodes: map<string, Cred>, id: string, code: string, now: int)
    requires Distinct(nodes) && Redeems(nodes, id, code, now)
    ensures Redeemer(nodes, code, now) == Some(id)
  {
  }

  lemma TheBearer(nodes: map<string, Cred>, id: string, token: string)
    requires Distinct(nodes) && Bears(nodes, id, token)
    ensures Bearer(nodes, token) == Some(id)
  {
  }

  lemma FreshPrefix(acts: seq<Act>, n: nat)
    requires n <= |acts| && FreshSecrets(acts)
    ensures FreshSecrets(acts[..n])
  {
  }

  // A code that was given, not withdrawn, not used and not older than fifteen minutes is
  // redeemed, and the token given for it is accepted.
  lemma {:induction false} LiveCodeIsRedeemed(acts: seq<Act>, i: nat, id: string, token: string, now: int)
    requires i < |acts| && Gives(acts, i, id) && Untouched(acts, i, |acts|, id)
    requires |acts[i].secret| == 64 && |token| == 64 && now < acts[i].now + 900_000
    requires FreshSecrets(acts + [Enroll(acts[i].secret, token, now)])
    ensures Accepted(Run(acts + [Enroll(acts[i].secret, token, now)]), token, id)
  {
    var act := Enroll(acts[i].secret, token, now);
    var all := acts + [act];
    assert all[..|acts|] == acts && acts[..|acts|] == acts;
    CodeWaits(acts, i, |acts|, id);
    FreshPrefix(all, |acts|);
    StoredAreDistinct(acts);
    TheRedeemer(Run(acts), id, acts[i].secret, now);
    StoredAreDistinct(all);
    TheBearer(Run(all), id, token);
  }

  // A token that is accepted stays so until the node is revoked or gets a new code.
  lemma {:induction false} TokenStays(acts: seq<Act>, more: seq<Act>, token: string, id: string)
    requires Accepted(Run(acts), token, id) && FreshSecrets(acts + more)
    requires forall a :: a in more ==> a != Revoke(id) && !(a.Issue? && a.id == id)
    ensures Accepted(Run(acts + more), token, id)
    decreases |more|
  {
    if more == [] {
      assert acts + more == acts;
    } else {
      var n := |more| - 1;
      assert (acts + more)[..|acts| + n] == acts + more[..n];
      FreshPrefix(acts + more, |acts| + n);
      TokenStays(acts, more[..n], token, id);
      NeverBoth(acts + more[..n], id);
      assert more[n] in more;
      StoredAreDistinct(acts + more);
      TheBearer(Run(acts + more), id, token);
    }
  }
}
