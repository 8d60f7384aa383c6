/** The cluster members a node gossips to (getClusterMembers in main.go): every
    member the membership layer reports, except the node itself and members that
    are not alive, in the order reported. */
module Membership {

  /** The states a member can be in, as the membership layer reports them. */
  datatype MemberStatus = StatusNone | StatusAlive | StatusLeaving | StatusLeft | StatusFailed

  /** A cluster member: its node name, its address and its status. */
  datatype Member = Member(name: string, addr: string, status: MemberStatus)

  /** The member is another node and is alive. */
  predicate IsLivePeer(m: Member, localName: string) {
    m.name != localName && m.status == StatusAlive
  }

  /** The live peers among `members`, in their order. */
  function LivePeers(members: seq<Member>, localName: string): (r: seq<Member>)
    ensures |r| <= |members|
    ensures forall i :: 0 <= i < |r| ==> IsLivePeer(r[i], localName)
    decreases |members|
  {
    if members == [] then []
    else
      var last := members[|members| - 1];
      LivePeers(members[..|members| - 1], localName) + (if IsLivePeer(last, localName) then [last] else [])
  }

  /** The loop of getClusterMembers: walk the members and append each live peer. */
  method GetClusterMembers(members: seq<Member>, localName: string) returns (result: seq<Member>)
    ensures result == LivePeers(members, localName)
  {
    result := [];
    for k := 0 to |members|
      invariant result == LivePeers(members[..k], localName)
    {
      var member := members[k];
      assert members[..k + 1][..k] == members[..k];
      if member.name != localName && member.status == StatusAlive {
        result := result + [member];
      }
    }
    assert members[..|members|] == members;
  }

  /** A member is kept exactly when it is among the members and is a live peer. */
  lemma {:induction false} LivePeersMembership(members: seq<Member>, localName: string, m: Member)
    ensures m in LivePeers(members, localName) <==> m in members && IsLivePeer(m, localName)
    decreases |members|
  {
    if members != [] {
      var init := members[..|members| - 1];
      LivePeersMembership(init, localName, m);
      assert members == init + [members[|members| - 1]];
    }
  }

  /** Filtering keeps the order: the live peers of a concatenation are those of
      its first part followed by those of its second. */
  lemma {:induction false} LivePeersConcat(a: seq<Member>, b: seq<Member>, localName: string)
    ensures LivePeers(a + b, localName) == LivePeers(a, localName) + LivePeers(b, localName)
    decreases |b|
  {
    if b == [] {
      assert a + b == a;
    } else {
      var init := b[..|b| - 1];
      var last := b[|b| - 1];
      assert (a + b)[..|a + b| - 1] == a + init;
      assert (a + b)[|a + b| - 1] == last;
      LivePeersConcat(a, init, localName);
    }
  }

  /** Filtering the live peers again changes nothing. */
  lemma {:induction false} LivePeersIdempotent(members: seq<Member>, localName: string)
    ensures LivePeers(LivePeers(members, localName), localName) == LivePeers(members, localName)
    decreases |members|
  {
    if members != [] {
      var init := members[..|members| - 1];
      var last := members[|members| - 1];
      var kept := if IsLivePeer(last, localName) then [last] else [];
      LivePeersIdempotent(init, localName);
      LivePeersConcat(LivePeers(init, localName), kept, localName);
      if kept != [] {
        assert kept[..0] == [];
      }
    }
  }
}
