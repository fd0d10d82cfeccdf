/** Trusted peers: protocol versions that only rise, one remembered nonce, and revocation. */
module FederationTrust {
  import opened Prelude

  datatype Peer = Peer(identity: string, version: int, schemas: set<string>, trust: int, active: bool,
                       lastNonce: Option<string>)

  type Store = map<string, Peer>

  datatype Denial = Untrusted | IdentityMismatch | Downgrade | BelowTrust | SchemaIncompatible | Replayed

  datatype Claim = Claim(identity: string, version: int, nonce: string, minTrust: int, schema: string)

  function Max(a: int, b: int): int { if a > b then a else b }

  function Trusted(s: Store, id: string, identity: string, version: int, schemas: set<string>, trust: int): Store {
    s[id := Peer(identity, Max(1, version), schemas, Max(0, trust), true, None)]
  }

  /** The first reason to deny; an empty required schema asks for none. */
  function Deny(s: Store, id: string, c: Claim): Option<Denial> {
    if id !in s || !s[id].active then Some(Untrusted)
    else
      var p := s[id];
      if p.identity != c.identity then Some(IdentityMismatch)
      else if c.version < p.version then Some(Downgrade)
      else if p.trust < c.minTrust then Some(BelowTrust)
      else if c.schema != "" && c.schema !in p.schemas then Some(SchemaIncompatible)
      else if p.lastNonce == Some(c.nonce) then Some(Replayed)
      else None
  }

  function Authenticated(s: Store, id: string, c: Claim): Store {
    if Deny(s, id, c).Some? then s
    else s[id := s[id].(version := Max(s[id].version, c.version), lastNonce := Some(c.nonce))]
  }

  function Revoked(s: Store, id: string): Store { if id in s then s[id := s[id].(active := false)] else s }

  /** Every peer but one is as it was. */
  ghost predicate OthersKept(before: Store, after: Store, id: string) {
    forall k :: k in before && k != id ==> k in after && after[k] == before[k]
  }

  class FederationTrustStore {
    var peers: Store

    constructor ()
      ensures peers == map[]
    {
      peers := map[];
    }

    method TrustPeer(id: string, identity: string, version: int, schemas: set<string>, trust: int)
      modifies this
      ensures peers == Trusted(old(peers), id, identity, version, schemas, trust)
      ensures peers.Keys == old(peers).Keys + {id} && OthersKept(old(peers), peers, id)
      ensures peers[id] == Peer(identity, if version < 1 then 1 else version, schemas, if trust < 0 then 0 else trust,
                                true, None)
    {
      peers := peers[id := Peer(identity, Max(1, version), schemas, Max(0, trust), true, None)];
    }

    method Authenticate(id: string, c: Claim) returns (denied: Option<Denial>)
      modifies this
      ensures denied == Deny(old(peers), id, c) && peers == Authenticated(old(peers), id, c)
      ensures denied.Some? ==> peers == old(peers)
      ensures denied.None? ==>
                && id in old(peers) && peers.Keys == old(peers).Keys && OthersKept(old(peers), peers, id)
                && peers[id] == old(peers)[id].(version := c.version, lastNonce := Some(c.nonce))
                && old(peers)[id].version <= c.version && old(peers)[id].lastNonce != Some(c.nonce)
    {
      if id !in peers || !peers[id].active { return Some(Untrusted); }
      var p := peers[id];
      if p.identity != c.identity { return Some(IdentityMismatch); }
      if c.version < p.version { return Some(Downgrade); }
      if p.trust < c.minTrust { return Some(BelowTrust); }
      if c.schema != "" && c.schema !in p.schemas { return Some(SchemaIncompatible); }
      if p.lastNonce == Some(c.nonce) { return Some(Replayed); }
      peers := peers[id := p.(version := Max(p.version, c.version), lastNonce := Some(c.nonce))];
      denied := None;
    }

    method Revoke(id: string) returns (found: bool)
      modifies this
      ensures found == (id in old(peers)) && peers == Revoked(old(peers), id)
      ensures peers.Keys == old(peers).Keys && OthersKept(old(peers), peers, id)
      ensures found ==> peers[id] == old(peers)[id].(active := false)
    {
      found := id in peers;
      if found { peers := peers[id := peers[id].(active := false)]; }
    }
  }

  // ----- runs -----

  datatype Event =
    | TrustCall(id: string, identity: string, version: int, schemas: set<string>, trust: int)
    | AuthCall(id: string, claim: Claim)
    | RevokeCall(id: string)

  function Step(s: Store, e: Event): Store {
    match e
    case TrustCall(id, identity, version, schemas, trust) => Trusted(s, id, identity, version, schemas, trust)
    case AuthCall(id, c) => Authenticated(s, id, c)
    case RevokeCall(id) => Revoked(s, id)
  }

  /** The store after i events of a run. */
  function At(s: Store, events: seq<Event>, i: nat): Store
    requires i <= |events|
  {
    if i == 0 then s else Step(At(s, events, i - 1), events[i - 1])
  }

  /** The i-th event is an accepted authentication of the peer. */
  predicate Accepted(s: Store, events: seq<Event>, i: nat, id: string) {
    i < |events| && events[i].AuthCall? && events[i].id == id && Deny(At(s, events, i), id, events[i].claim).None?
  }

  /** No trust_peer call for the peer among events i..j. */
  predicate NoTrust(events: seq<Event>, i: nat, j: nat, id: string) {
    forall k :: i <= k < j && k < |events| ==> !(events[k].TrustCall? && events[k].id == id)
  }

  /** No revocation of the peer among events i..j. */
  predicate NoRevoke(events: seq<Event>, i: nat, j: nat, id: string) {
    forall k :: i <= k < j && k < |events| ==> events[k] != RevokeCall(id)
  }

  /** No acceptance for the peer strictly between i and j. */
  predicate NoneBetween(s: Store, events: seq<Event>, i: nat, j: nat, id: string) {
    forall k :: i < k < j ==> !Accepted(s, events, k, id)
  }

  lemma DenialsChangeNothing(s: Store, id: string, c: Claim)
    requires Deny(s, id, c).Some?
    ensures Step(s, AuthCall(id, c)) == s
  {
  }

  /**
   Between trust calls the row keeps identity, schemas and trust, its version never falls, and it stays active
   exactly when it is not revoked.
   */
  lemma {:induction false} RowBetween(s: Store, events: seq<Event>, i: nat, j: nat, id: string)
    requires i <= j <= |events| && NoTrust(events, i, j, id) && id in At(s, events, i)
    ensures id in At(s, events, j)
    ensures var p, q := At(s, events, i)[id], At(s, events, j)[id];
            && q.identity == p.identity && q.schemas == p.schemas && q.trust == p.trust && p.version <= q.version
            && (q.active <==> p.active && NoRevoke(events, i, j, id))
    decreases j
  {
    if i < j {
      RowBetween(s, events, i, j - 1, id);
      assert NoRevoke(events, i, j, id) <==> NoRevoke(events, i, j - 1, id) && events[j - 1] != RevokeCall(id);
    }
  }

  /** With no acceptance in between either, version and nonce are untouched. */
  lemma {:induction false} RowUntouched(s: Store, events: seq<Event>, i: nat, j: nat, id: string)
    requires i <= j <= |events| && NoTrust(events, i, j, id) && id in At(s, events, i)
    requires forall k :: i <= k < j ==> !Accepted(s, events, k, id)
    ensures id in At(s, events, j)
    ensures At(s, events, j)[id].version == At(s, events, i)[id].version
    ensures At(s, events, j)[id].lastNonce == At(s, events, i)[id].lastNonce
    decreases j
  {
    if i < j {
      RowUntouched(s, events, i, j - 1, id);
      assert !Accepted(s, events, j - 1, id);
    }
  }

  /** Until the peer is trusted anew, accepted protocol versions never decrease. */
  lemma {:induction false} VersionsNeverFall(s: Store, events: seq<Event>, i: nat, j: nat, id: string)
    requires i < j && Accepted(s, events, i, id) && Accepted(s, events, j, id) && NoTrust(events, i, j, id)
    ensures events[i].claim.version <= events[j].claim.version
  {
    RowBetween(s, events, i + 1, j, id);
  }

  /** They start at or above the trusted version, which is at least 1. */
  lemma {:induction false} VersionsStartAtTrusted(s: Store, events: seq<Event>, t: nat, j: nat, id: string)
    requires t < j && t < |events| && events[t].TrustCall? && events[t].id == id
    requires Accepted(s, events, j, id) && NoTrust(events, t + 1, j, id)
    ensures events[j].claim.version >= 1 && events[j].claim.version >= events[t].version
  {
    RowBetween(s, events, t + 1, j, id);
  }

  /** The stored version and nonce are those of the last acceptance. */
  lemma {:induction false} StoredIsLastAccepted(s: Store, events: seq<Event>, i: nat, j: nat, id: string)
    requires i < j <= |events| && Accepted(s, events, i, id) && NoTrust(events, i, j, id)
    requires NoneBetween(s, events, i, j, id)
    ensures id in At(s, events, j)
    ensures At(s, events, j)[id].version == events[i].claim.version
    ensures At(s, events, j)[id].lastNonce == Some(events[i].claim.nonce)
  {
    RowUntouched(s, events, i + 1, j, id);
  }

  /** No two successive acceptances carry the same nonce. */
  lemma {:induction false} SuccessiveNoncesDiffer(s: Store, events: seq<Event>, i: nat, j: nat, id: string)
    requires i < j && Accepted(s, events, i, id) && Accepted(s, events, j, id) && NoTrust(events, i, j, id)
    requires NoneBetween(s, events, i, j, id)
    ensures events[i].claim.nonce != events[j].claim.nonce
  {
    StoredIsLastAccepted(s, events, i, j, id);
  }

  /** After a revocation nothing is accepted until the peer is trusted anew. */
  lemma {:induction false} RevokedIsDenied(s: Store, events: seq<Event>, r: nat, j: nat, id: string)
    requires r < j && r < |events| && events[r] == RevokeCall(id) && NoTrust(events, r, j, id)
    ensures !Accepted(s, events, j, id)
  {
    if j < |events| {
      if id in At(s, events, r) { RowBetween(s, events, r + 1, j, id); } else { StaysUnknown(s, events, r, j, id); }
    }
  }

  lemma {:induction false} StaysUnknown(s: Store, events: seq<Event>, i: nat, j: nat, id: string)
    requires i <= j <= |events| && NoTrust(events, i, j, id) && id !in At(s, events, i)
    ensures id !in At(s, events, j)
    decreases j
  {
    if i < j { StaysUnknown(s, events, i, j - 1, id); }
  }

  // ----- when exactly a claim is accepted -----

  /** The latest acceptance for the peer strictly between i and j, if there is one. */
  lemma {:induction false} LastAcceptance(s: Store, events: seq<Event>, i: nat, j: nat, id: string) returns (k: nat)
    requires i < j <= |events|
    ensures NoneBetween(s, events, i, j, id)
            || (i < k < j && Accepted(s, events, k, id) && NoneBetween(s, events, k, j, id))
  {
    k := j - 1;
    while k > i && !Accepted(s, events, k, id)
      invariant i <= k < j && NoneBetween(s, events, k, j, id)
    {
      k := k - 1;
    }
  }

  /** The claim meets the trust call at t: its identity, its level, its schemas and its version. */
  ghost predicate MeetsTrust(t: Event, c: Claim)
    requires t.TrustCall?
  {
    && c.identity == t.identity && (c.minTrust <= 0 || c.minTrust <= t.trust)
    && (c.schema == "" || c.schema in t.schemas) && c.version >= 1 && c.version >= t.version
  }

  /** The claim is no older than what was accepted after t, and its nonce is not that of the latest acceptance. */
  ghost predicate MeetsHistory(s: Store, events: seq<Event>, t: nat, j: nat, id: string, c: Claim) {
    forall k :: t < k < j && Accepted(s, events, k, id) ==>
      && events[k].claim.version <= c.version
      && (NoneBetween(s, events, k, j, id) ==> events[k].claim.nonce != c.nonce)
  }

  /**
   In every run, after the last trust call for a peer a claim is accepted exactly when the peer was not revoked since
   and the claim meets that call and the acceptances since.
   */
  lemma {:induction false} AcceptedExactly(s: Store, events: seq<Event>, t: nat, j: nat, id: string, c: Claim)
    requires t < j <= |events| && events[t].TrustCall? && events[t].id == id && NoTrust(events, t + 1, j, id)
    ensures Deny(At(s, events, j), id, c).None?
            <==> NoRevoke(events, t + 1, j, id) && MeetsTrust(events[t], c) && MeetsHistory(s, events, t, j, id, c)
  {
    RowBetween(s, events, t + 1, j, id);
    StoredHistory(s, events, t, j, id, c);
  }

  /** The claim is as new as the trust call and everything accepted after it. */
  ghost predicate NewEnough(s: Store, events: seq<Event>, t: nat, j: nat, id: string, c: Claim)
    requires t < |events| && events[t].TrustCall?
  {
    && c.version >= 1 && c.version >= events[t].version
    && forall k :: t < k < j && Accepted(s, events, k, id) ==> events[k].claim.version <= c.version
  }

  /** The first rule a claim breaks is the reason given. */
  lemma {:induction false} DeniedExactly(s: Store, events: seq<Event>, t: nat, j: nat, id: string, c: Claim)
    requires t < j <= |events| && events[t].TrustCall? && events[t].id == id && NoTrust(events, t + 1, j, id)
    ensures var d, trust := Deny(At(s, events, j), id, c), events[t];
            var standing := NoRevoke(events, t + 1, j, id) && c.identity == trust.identity;
            var trusted := c.minTrust <= 0 || c.minTrust <= trust.trust;
            var known := c.schema == "" || c.schema in trust.schemas;
            && (d == Some(Untrusted) <==> !NoRevoke(events, t + 1, j, id))
            && (d == Some(IdentityMismatch) <==> NoRevoke(events, t + 1, j, id) && c.identity != trust.identity)
            && (d == Some(Downgrade) <==> standing && !NewEnough(s, events, t, j, id, c))
            && (d == Some(BelowTrust) <==> standing && NewEnough(s, events, t, j, id, c) && !trusted)
            && (d == Some(SchemaIncompatible) <==>
                  standing && NewEnough(s, events, t, j, id, c) && trusted && !known)
            && (d == Some(Replayed) <==> && standing && NewEnough(s, events, t, j, id, c) && trusted && known
                                         && !MeetsHistory(s, events, t, j, id, c))
  {
    RowBetween(s, events, t + 1, j, id);
    StoredVersion(s, events, t, j, id, c);
    StoredHistory(s, events, t, j, id, c);
  }

  lemma {:induction false} StoredVersion(s: Store, events: seq<Event>, t: nat, j: nat, id: string, c: Claim)
    requires t < j <= |events| && events[t].TrustCall? && events[t].id == id && NoTrust(events, t + 1, j, id)
    requires id in At(s, events, j)
    ensures c.version >= At(s, events, j)[id].version <==> NewEnough(s, events, t, j, id, c)
  {
    var k := LastAcceptance(s, events, t, j, id);
    if NoneBetween(s, events, t, j, id) {
      RowUntouched(s, events, t + 1, j, id);
    } else {
      StoredIsLastAccepted(s, events, k, j, id);
      VersionsStartAtTrusted(s, events, t, k, id);
      forall m | t < m < j && Accepted(s, events, m, id) ensures events[m].claim.version <= events[k].claim.version {
        if m < k { VersionsNeverFall(s, events, m, k, id); }
      }
    }
  }

  /** What the stored version and nonce demand of a claim is what the history since the trust call demands. */
  lemma {:induction false} StoredHistory(s: Store, events: seq<Event>, t: nat, j: nat, id: string, c: Claim)
    requires t < j <= |events| && events[t].TrustCall? && events[t].id == id && NoTrust(events, t + 1, j, id)
    requires id in At(s, events, j)
    ensures var p := At(s, events, j)[id];
            c.version >= p.version && p.lastNonce != Some(c.nonce)
            <==> c.version >= 1 && c.version >= events[t].version && MeetsHistory(s, events, t, j, id, c)
  {
    var k := LastAcceptance(s, events, t, j, id);
    if NoneBetween(s, events, t, j, id) {
      RowUntouched(s, events, t + 1, j, id);
    } else {
      StoredIsLastAccepted(s, events, k, j, id);
      VersionsStartAtTrusted(s, events, t, k, id);
      forall m | t < m < j && Accepted(s, events, m, id) ensures events[m].claim.version <= events[k].claim.version {
        if m < k { VersionsNeverFall(s, events, m, k, id); }
      }
    }
  }

  /** A peer that no call ever trusted is denied in every run. */
  lemma {:induction false} NeverTrustedIsDenied(events: seq<Event>, j: nat, id: string, c: Claim)
    requires j <= |events| && NoTrust(events, 0, j, id)
    ensures Deny(At(map[], events, j), id, c) == Some(Untrusted)
  {
    StaysUnknown(map[], events, 0, j, id);
  }

  /**
   A claim accepted once and presented again, with no new trust call, is accepted again exactly when the peer was not
   revoked, the latest acceptance carried another nonce, and no newer version was accepted.
   */
  lemma {:induction false} ReplayExactly(s: Store, events: seq<Event>, i: nat, k: nat, j: nat, id: string)
    requires i <= k < j <= |events| && NoTrust(events, i, j, id)
    requires Accepted(s, events, i, id) && Accepted(s, events, k, id) && NoneBetween(s, events, k, j, id)
    ensures Deny(At(s, events, j), id, events[i].claim).None?
            <==> && NoRevoke(events, i, j, id) && events[k].claim.nonce != events[i].claim.nonce
                 && events[k].claim.version == events[i].claim.version
  {
    RowBetween(s, events, i, j, id);
    StoredIsLastAccepted(s, events, k, j, id);
    if i < k { VersionsNeverFall(s, events, i, k, id); }
  }

  /** Only the last nonce is remembered: a run in which the first claim is accepted again after one other. */
  lemma {:induction false} EarlierNonceReturns(id: string, c: Claim, other: string)
    requires c.nonce != other && c.version >= 1
    ensures var events := [TrustCall(id, c.identity, c.version, {c.schema}, c.minTrust), AuthCall(id, c),
                           AuthCall(id, c.(nonce := other)), AuthCall(id, c)];
            Accepted(map[], events, 1, id) && Accepted(map[], events, 2, id) && Accepted(map[], events, 3, id)
  {
    var events := [TrustCall(id, c.identity, c.version, {c.schema}, c.minTrust), AuthCall(id, c),
                   AuthCall(id, c.(nonce := other)), AuthCall(id, c)];
    assert At(map[], events, 0) == map[];
    assert At(map[], events, 1) == Step(map[], events[0]);
    assert At(map[], events, 2) == Step(At(map[], events, 1), events[1]);
    assert At(map[], events, 3) == Step(At(map[], events, 2), events[2]);
  }

  /** A repeated claim is denied as long as nothing else was accepted for the peer and it was not trusted anew. */
  lemma {:induction false} ImmediateReplayDenied(s: Store, events: seq<Event>, i: nat, j: nat, id: string, c: Claim)
    requires i < j <= |events| && Accepted(s, events, i, id) && NoTrust(events, i, j, id)
    requires c.nonce == events[i].claim.nonce && NoneBetween(s, events, i, j, id)
    ensures Deny(At(s, events, j), id, c).Some?
  {
    StoredIsLastAccepted(s, events, i, j, id);
  }
}
