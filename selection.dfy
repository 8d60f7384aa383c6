/** One gossip round (notifyMembers and notifyMember in main.go): which of the
    live peers are pushed to, and what each push carries. The random draw of the
    source is a parameter; the pushes are the requests the round would send. */
module Selection {
  import opened Membership
  import opened Register

  /** The fan-out of a round in a cluster of more than two peers. */
  const MembersToNotify: nat := 2

  /** The number of pushes a round sends to `n` peers. */
  function FanOut(n: nat): nat {
    if n <= 2 then n else MembersToNotify
  }

  /** For a value below twice the modulus, `%` subtracts the modulus at most once. */
  lemma ModBelowTwice(x: int, n: int)
    requires 0 < n && 0 <= x < 2 * n
    ensures x % n == if x < n then x else x - n
  {
    if x >= n {
      assert x == 1 * n + (x - n);
    }
  }

  /** The indices of the peers pushed to, given the nonnegative number `draw` the
      source takes from rand.Int(): every peer when there are at most two,
      otherwise MembersToNotify consecutive peers from `draw % n`, wrapping. */
  function TargetIndices(n: nat, draw: nat): (t: seq<int>)
    ensures |t| == FanOut(n)
    ensures forall i :: 0 <= i < |t| ==> 0 <= t[i] < n
    ensures forall i, j :: 0 <= i < j < |t| ==> t[i] != t[j]
  {
    if n <= 2 then seq(n, i => i)
    else
      var randIndex := draw % n;
      var t := seq(MembersToNotify, i => (randIndex + i) % n);
      assert forall i :: 0 <= i < |t| ==> 0 <= t[i] < n;
      assert forall i, j :: 0 <= i < j < |t| ==> t[i] != t[j] by {
        ModBelowTwice(randIndex, n);
        ModBelowTwice(randIndex + 1, n);
      }
      t
  }

  /** In a cluster of at most two peers, every peer is pushed to, each once. */
  lemma SmallClusterTargetsAll(n: nat, draw: nat, k: int)
    requires n <= 2 && 0 <= k < n
    ensures k in TargetIndices(n, draw)
  {
    assert TargetIndices(n, draw)[k] == k;
  }

  /** In a larger cluster the targets are a window of MembersToNotify consecutive
      peers, wrapping at the end: it starts at `draw % n` and the second target is
      the successor of the first. */
  lemma LargeClusterTargetsWindow(n: nat, draw: nat)
    requires n > 2
    ensures |TargetIndices(n, draw)| == MembersToNotify == 2
    ensures TargetIndices(n, draw)[0] == draw % n
    ensures TargetIndices(n, draw)[1] == (TargetIndices(n, draw)[0] + 1) % n
  {
    ModBelowTwice(draw % n, n);
  }

  /** In a larger cluster every peer can start the window: the draw `k` starts it at `k`. */
  lemma EveryWindowStartCanBeDrawn(n: nat, k: nat)
    requires n > 2 && k < n
    ensures TargetIndices(n, k)[0] == k
  {
    ModBelowTwice(k, n);
  }

  /** The peers pushed to in a round. */
  function SelectTargets(otherMembers: seq<Member>, draw: nat): (r: seq<Member>)
    ensures |r| == FanOut(|otherMembers|)
    ensures forall i :: 0 <= i < |r| ==> r[i] in otherMembers
    ensures (forall i, j :: 0 <= i < j < |otherMembers| ==> otherMembers[i].name != otherMembers[j].name) ==>
              forall i, j :: 0 <= i < j < |r| ==> r[i].name != r[j].name
  {
    var t := TargetIndices(|otherMembers|, draw);
    var r := seq(|t|, i requires 0 <= i < |t| => otherMembers[t[i]]);
    assert forall i :: 0 <= i < |r| ==> r[i] == otherMembers[t[i]];
    r
  }

  /** The request one push sends: the target's address, the cell's number and
      generation, and the name of the notifying node. */
  datatype Push = Push(addr: string, number: int, generation: int, notifier: string)

  /** notifyMember: read the cell and build the push to `addr`. */
  method NotifyMember(addr: string, db: OneAndOnlyNumber, notifier: string) returns (p: Push)
    ensures p.addr == addr && p.notifier == notifier
    ensures Snapshot(p.number, p.generation) == db.State()
  {
    var val, gen := db.GetValue();
    p := Push(addr, val, gen, notifier);
  }

  /** notifyMembers: one push per selected peer, each carrying the cell's pair;
      the cell is only read. */
  method NotifyMembers(otherMembers: seq<Member>, draw: nat, db: OneAndOnlyNumber, notifier: string)
    returns (pushes: seq<Push>)
    ensures |pushes| == FanOut(|otherMembers|)
    ensures forall i :: 0 <= i < |pushes| ==>
              pushes[i] == Push(SelectTargets(otherMembers, draw)[i].addr, db.Number, db.Generation, notifier)
  {
    var targets := SelectTargets(otherMembers, draw);
    pushes := [];
    if |otherMembers| <= 2 {
      for k := 0 to |otherMembers|
        invariant |pushes| == k
        invariant forall i :: 0 <= i < k ==>
                    pushes[i] == Push(targets[i].addr, db.Number, db.Generation, notifier)
      {
        var p := NotifyMember(otherMembers[k].addr, db, notifier);
        pushes := pushes + [p];
      }
    } else {
      var randIndex := draw % |otherMembers|;
      for k := 0 to MembersToNotify
        invariant |pushes| == k
        invariant forall i :: 0 <= i < k ==>
                    pushes[i] == Push(targets[i].addr, db.Number, db.Generation, notifier)
      {
        var p := NotifyMember(otherMembers[(randIndex + k) % |otherMembers|].addr, db, notifier);
        pushes := pushes + [p];
      }
    }
  }
}
