/** Last-writer-wins session takeover across nodes
    (internal/cluster/takeover.go, conflict.go). */
module Takeover {
  import opened ByteStrings

  /** The part of `SessionMeta` that decides conflicts. */
  datatype Stamp = Stamp(epoch: nat, timestamp: int)

  /** `LWWResolver.Resolve`: does the remote session win? */
  predicate RemoteWins(local: Stamp, remote: Stamp) {
    if remote.epoch > local.epoch then true
    else if remote.epoch < local.epoch then false
    else if remote.timestamp > local.timestamp then true
    else false
  }

  /** Ties are kept locally; otherwise winning is a strict order on stamps. */
  lemma WinsIsStrictOrder(a: Stamp, b: Stamp, c: Stamp)
    ensures !RemoteWins(a, a)
    ensures RemoteWins(a, b) ==> !RemoteWins(b, a)
    ensures RemoteWins(a, b) && RemoteWins(b, c) ==> RemoteWins(a, c)
    ensures a != b ==> RemoteWins(a, b) || RemoteWins(b, a)
  {
  }

  // ----- The network -----

  type Node = Bytes
  type Client = Bytes

  datatype Request = Request(client: Client, from: Node, stamp: Stamp)

  /** One delivery of a request at a node. Deliveries may repeat and come in any order. */
  datatype Handled = Handled(at: Node, req: Request)

  /** Every node's local sessions. */
  type Sessions = map<(Node, Client), Stamp>

  /** `HandleTakeoverRequest`: yield the session if there is one and it loses. */
  function Handle(s: Sessions, h: Handled): Sessions {
    var key := (h.at, h.req.client);
    if key in s && RemoteWins(s[key], h.req.stamp) then s - {key} else s
  }

  /** The reply: success when there was nothing to keep or the session was yielded. */
  predicate Acks(s: Sessions, h: Handled) {
    var key := (h.at, h.req.client);
    key !in s || RemoteWins(s[key], h.req.stamp)
  }

  function Run(s: Sessions, hs: seq<Handled>): Sessions {
    if hs == [] then s else Handle(Run(s, hs[..|hs| - 1]), hs[|hs| - 1])
  }

  /** A request that beats the session initially held at its destination. */
  predicate Beats(s: Sessions, h: Handled, key: (Node, Client))
    requires key in s
  {
    h.at == key.0 && h.req.client == key.1 && RemoteWins(s[key], h.req.stamp)
  }

  /** A holder loses its session if and only if some request handled there is strictly
      greater in (epoch, timestamp); a session that stays is unchanged. */
  lemma {:induction false} LosesIffBeaten(s: Sessions, hs: seq<Handled>, key: (Node, Client))
    ensures key in Run(s, hs) ==> key in s && Run(s, hs)[key] == s[key]
    ensures key in s ==> (key !in Run(s, hs) <==> exists i :: 0 <= i < |hs| && Beats(s, hs[i], key))
    decreases |hs|
  {
    if hs != [] {
      var n := |hs| - 1;
      LosesIffBeaten(s, hs[..n], key);
      if key in s {
        assert forall i :: 0 <= i < n ==> Beats(s, hs[..n][i], key) == Beats(s, hs[i], key);
      }
    }
  }

  /** Order and repetition do not matter: any two histories delivering the same
      requests at the same nodes end in the same sessions. */
  lemma OrderIrrelevant(s: Sessions, a: seq<Handled>, b: seq<Handled>)
    requires forall h :: h in a <==> h in b
    ensures Run(s, a) == Run(s, b)
  {
    forall key ensures key in Run(s, a) <==> key in Run(s, b) {
      LosesIffBeaten(s, a, key);
      LosesIffBeaten(s, b, key);
      if key in s {
        SameBeaten(s, a, b, key);
        SameBeaten(s, b, a, key);
      }
    }
    forall key | key in Run(s, a) ensures Run(s, a)[key] == Run(s, b)[key] {
      LosesIffBeaten(s, a, key);
      LosesIffBeaten(s, b, key);
    }
  }

  lemma SameBeaten(s: Sessions, a: seq<Handled>, b: seq<Handled>, key: (Node, Client))
    requires key in s && forall h :: h in a ==> h in b
    ensures (exists i :: 0 <= i < |a| && Beats(s, a[i], key)) ==> exists i :: 0 <= i < |b| && Beats(s, b[i], key)
  {
    if i :| 0 <= i < |a| && Beats(s, a[i], key) {
      assert a[i] in b;
      var j :| 0 <= j < |b| && b[j] == a[i];
    }
  }

  // ----- Safety and convergence -----

  /** Every handled request was sent on behalf of a session some node holds. */
  ghost predicate FromHolders(s: Sessions, hs: seq<Handled>) {
    forall i :: 0 <= i < |hs| ==>
      (hs[i].req.from, hs[i].req.client) in s && s[(hs[i].req.from, hs[i].req.client)] == hs[i].req.stamp
  }

  /** No session of the client anywhere is newer. */
  ghost predicate Maximal(s: Sessions, key: (Node, Client)) {
    key in s && forall k :: k in s && k.1 == key.1 ==> !RemoteWins(s[key], s[k])
  }

  /** A maximal session is never lost, so the client's newest session survives. */
  lemma MaximalSurvives(s: Sessions, hs: seq<Handled>, key: (Node, Client))
    requires FromHolders(s, hs) && Maximal(s, key)
    ensures key in Run(s, hs) && Run(s, hs)[key] == s[key]
  {
    LosesIffBeaten(s, hs, key);
    forall i | 0 <= i < |hs| ensures !Beats(s, hs[i], key) {
      assert (hs[i].req.from, hs[i].req.client) in s;
    }
  }

  /** The strictly greatest holder's request has reached a holder. */
  ghost predicate Reached(hs: seq<Handled>, at: Node, winner: (Node, Client), stamp: Stamp) {
    exists i :: 0 <= i < |hs| && hs[i] == Handled(at, Request(winner.1, winner.0, stamp))
  }

  ghost predicate Greatest(s: Sessions, winner: (Node, Client)) {
    winner in s && forall k :: k in s && k.1 == winner.1 && k != winner ==> RemoteWins(s[k], s[winner])
  }

  /** Convergence: with a strictly greatest holder it always survives, and it
      is the only one left once its request has been handled at every other holder. */
  lemma GreatestAloneRemains(s: Sessions, hs: seq<Handled>, winner: (Node, Client))
    requires FromHolders(s, hs) && Greatest(s, winner)
    requires forall k :: k in s && k.1 == winner.1 && k != winner ==> Reached(hs, k.0, winner, s[winner])
    ensures forall k: (Node, Client) :: k.1 == winner.1 ==> (k in Run(s, hs) <==> k == winner)
  {
    forall k: (Node, Client) | k.1 == winner.1 ensures k in Run(s, hs) <==> k == winner {
      LosesIffBeaten(s, hs, k);
      if k == winner {
        forall j | j in s && j.1 == winner.1 ensures !RemoteWins(s[winner], s[j]) {
          if j != winner { WinsIsStrictOrder(s[j], s[winner], s[j]); }
        }
        MaximalSurvives(s, hs, winner);
      } else if k in s {
        assert Reached(hs, k.0, winner, s[winner]);
        var i :| 0 <= i < |hs| && hs[i] == Handled(k.0, Request(winner.1, winner.0, s[winner]));
        assert Beats(s, hs[i], k);
      }
    }
  }

  /** Two holders with equal stamps keep both sessions, whatever is delivered between
      them: the tie rule makes no exclusivity promise. */
  lemma TieKeepsBoth(s: Sessions, hs: seq<Handled>, a: (Node, Client), b: (Node, Client))
    requires FromHolders(s, hs) && Maximal(s, a) && b in s && b.1 == a.1 && s[b] == s[a]
    ensures a in Run(s, hs) && b in Run(s, hs)
  {
    MaximalSurvives(s, hs, a);
    MaximalSurvives(s, hs, b);
  }

  // ----- As the source runs -----

  class TakeoverManager {
    const selfID: Node
    var sessions: map<Client, Stamp>

    /** This node's share of the cluster's sessions. */
    ghost predicate Holds(s: Sessions)
      reads this
    {
      forall c :: (c in sessions <==> (selfID, c) in s) && (c in sessions ==> sessions[c] == s[(selfID, c)])
    }

    constructor (selfID: Node)
      ensures this.selfID == selfID && sessions == map[]
    {
      this.selfID := selfID;
      sessions := map[];
    }

    /** A client connected here: the cluster gains or renews this node's session. */
    method SetLocalSession(client: Client, stamp: Stamp, ghost s: Sessions)
      requires Holds(s)
      modifies this
      ensures Holds(s[(selfID, client) := stamp])
    {
      sessions := sessions[client := stamp];
    }

    method HandleTakeoverRequest(req: Request, ghost s: Sessions) returns (success: bool, disconnected: bool)
      requires Holds(s)
      modifies this
      ensures Holds(Handle(s, Handled(selfID, req)))
      ensures success == Acks(s, Handled(selfID, req))
      ensures disconnected <==> req.client in old(sessions) && req.client !in sessions
    {
      var exists_ := req.client in sessions;
      var shouldYield := !exists_ || RemoteWins(sessions[req.client], req.stamp);
      disconnected := shouldYield && exists_;
      if disconnected {
        sessions := sessions - {req.client};
      }
      return shouldYield, disconnected;
    }
  }
}
