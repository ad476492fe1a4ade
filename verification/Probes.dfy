/** Codec probes in flight, and their cancellation when a session ends. */
module Probes {
  datatype Probe = Probe(session: nat, id: nat)

  /** The element at `i` leaves and the last one takes its place. */
  function SwapRemoved(s: seq<Probe>, i: nat): (r: seq<Probe>)
    requires i < |s|
    ensures |r| == |s| - 1 && forall j :: 0 <= j < i && j < |r| ==> r[j] == s[j]
  {
    s[i := s[|s| - 1]][..|s| - 1]
  }

  lemma SwapRemovedKeeps(s: seq<Probe>, i: nat)
    requires i < |s|
    ensures multiset(s) == multiset(SwapRemoved(s, i)) + multiset{s[i]}
  {
    var n := |s| - 1;
    if i == n {
      assert s == s[..n] + [s[n]];
      assert SwapRemoved(s, i) == s[..n];
    } else {
      assert s == s[..i] + ([s[i]] + s[i + 1..n] + [s[n]]);
      assert SwapRemoved(s, i) == s[..i] + ([s[n]] + s[i + 1..n]);
    }
  }

  function Ids(ps: seq<Probe>): (r: seq<nat>) {
    seq(|ps|, i requires 0 <= i < |ps| => ps[i].id)
  }

  lemma NoIds()
    ensures Ids([]) == []
  {}

  lemma IdsMore(ps: seq<Probe>, p: Probe)
    ensures Ids(ps + [p]) == Ids(ps) + [p.id] && multiset(ps + [p]) == multiset(ps) + multiset{p}
  {}

  class CodecProbeTracker {
    var probes: seq<Probe>

    constructor ()
      ensures probes == []
    {
      probes := [];
    }

    method Register(session: nat, id: nat, limit: nat) returns (ok: bool)
      modifies this
      ensures ok == (|old(probes)| < limit)
      ensures probes == if ok then old(probes) + [Probe(session, id)] else old(probes)
    {
      ok := |probes| < limit;
      if ok { probes := probes + [Probe(session, id)]; }
    }

    /** Every probe of the session is cancelled once, and every other one stays. */
    method OnSessionClosed(session: nat) returns (cancelled: seq<nat>, ghost gone: seq<Probe>)
      modifies this
      ensures multiset(old(probes)) == multiset(probes) + multiset(gone) && cancelled == Ids(gone)
      ensures forall i :: 0 <= i < |probes| ==> probes[i].session != session
      ensures forall i :: 0 <= i < |gone| ==> gone[i].session == session
    {
      hide SwapRemoved, Ids;
      cancelled, gone := [], [];
      assert cancelled == Ids(gone) by { NoIds(); }
      var i := 0;
      while i < |probes|
        invariant 0 <= i <= |probes| && multiset(old(probes)) == multiset(probes) + multiset(gone)
          && cancelled == Ids(gone)
        invariant forall j :: 0 <= j < i ==> probes[j].session != session
        invariant forall j :: 0 <= j < |gone| ==> gone[j].session == session
        decreases |probes| - i
      {
        if probes[i].session == session {
          SwapRemovedKeeps(probes, i);
          IdsMore(gone, probes[i]);
          cancelled, gone := cancelled + [probes[i].id], gone + [probes[i]];
          probes := SwapRemoved(probes, i);
        } else {
          i := i + 1;
        }
      }
    }

    method Complete(session: nat, id: nat) returns (found: bool)
      modifies this
      ensures found <==> Probe(session, id) in old(probes)
      ensures multiset(old(probes)) == multiset(probes) + if found then multiset{Probe(session, id)} else multiset{}
    {
      var i := 0;
      while i < |probes|
        invariant 0 <= i <= |probes| && forall j :: 0 <= j < i ==> probes[j] != Probe(session, id)
      {
        if probes[i] == Probe(session, id) {
          SwapRemovedKeeps(probes, i);
          probes := SwapRemoved(probes, i);
          return true;
        }
        i := i + 1;
      }
      found := false;
    }
  }
}
