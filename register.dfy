/** The replicated versioned cell of one node (type oneAndOnlyNumber in main.go):
    a last-writer-wins register made of the replicated number and its generation.
    The pure part (Snapshot, Write, Merge, Run) states the register's behaviour on
    values; class OneAndOnlyNumber updates its two fields in place and is proved
    to follow it. */
module Register {

  /** A consistent reading of a cell: the number and the generation it belongs to. */
  datatype Snapshot = Snapshot(number: int, generation: int)

  /** What a merge of an incoming push produced: the new pair, and whether the
      remote pair was adopted. */
  datatype MergeResult = MergeResult(state: Snapshot, adopted: bool)

  /** One call on a cell: a local write (setValue) or an incoming push (notifyValue). */
  datatype Op = LocalWrite(newVal: int) | RemotePush(curVal: int, curGeneration: int)

  /** The cell a node starts with. */
  function Initial(val: int): Snapshot {
    Snapshot(val, 0)
  }

  /** A local write: the new number, one generation later, whatever the old number was. */
  function Write(s: Snapshot, newVal: int): Snapshot {
    Snapshot(newVal, s.generation + 1)
  }

  /** The merge rule: the remote pair wins only when its generation is strictly newer. */
  function Merge(s: Snapshot, curVal: int, curGeneration: int): MergeResult {
    if curGeneration > s.generation then MergeResult(Snapshot(curVal, curGeneration), true)
    else MergeResult(s, false)
  }

  function Apply(s: Snapshot, op: Op): Snapshot {
    match op
    case LocalWrite(v) => Write(s, v)
    case RemotePush(v, g) => Merge(s, v, g).state
  }

  /** The cell after the calls `ops`, applied in order. */
  function Run(s: Snapshot, ops: seq<Op>): Snapshot
    decreases |ops|
  {
    if ops == [] then s else Run(Apply(s, ops[0]), ops[1..])
  }

  /** How many of the calls are local writes. */
  function CountWrites(ops: seq<Op>): nat {
    if ops == [] then 0 else (if ops[0].LocalWrite? then 1 else 0) + CountWrites(ops[1..])
  }

  predicate OnlyPushes(ops: seq<Op>) {
    forall i :: 0 <= i < |ops| ==> ops[i].RemotePush?
  }

  lemma {:induction false} RunAppend(s: Snapshot, a: seq<Op>, b: seq<Op>)
    ensures Run(s, a + b) == Run(Run(s, a), b)
    decreases |a|
  {
    if a == [] {
      assert a + b == b;
    } else {
      assert (a + b)[0] == a[0];
      assert (a + b)[1..] == a[1..] + b;
      RunAppend(Apply(s, a[0]), a[1..], b);
    }
  }

  /** Every local write advances the generation by one and no call moves it back,
      so the generation grows by at least the number of local writes. */
  lemma {:induction false} GenerationCountsWrites(s: Snapshot, ops: seq<Op>)
    ensures Run(s, ops).generation >= s.generation + CountWrites(ops)
    decreases |ops|
  {
    if ops != [] {
      GenerationCountsWrites(Apply(s, ops[0]), ops[1..]);
    }
  }

  /** The generation observed after each call of a sequence of setValue and
      notifyValue calls never decreases. */
  lemma GenerationNeverDecreases(s: Snapshot, ops: seq<Op>, i: nat, j: nat)
    requires i <= j <= |ops|
    ensures Run(s, ops[..i]).generation <= Run(s, ops[..j]).generation
  {
    assert ops[..j] == ops[..i] + ops[i..j];
    RunAppend(s, ops[..i], ops[i..j]);
    GenerationCountsWrites(Run(s, ops[..i]), ops[i..j]);
  }

  /** Pushes whose generation is not newer than the cell's change nothing,
      however many there are (the tie included). */
  lemma {:induction false} StalePushesIgnored(s: Snapshot, ops: seq<Op>)
    requires forall i :: 0 <= i < |ops| ==> ops[i].RemotePush? && ops[i].curGeneration <= s.generation
    ensures Run(s, ops) == s
    decreases |ops|
  {
    if ops != [] {
      StalePushesIgnored(s, ops[1..]);
    }
  }

  /** Delivering the same push once or any number of times gives the same cell. */
  lemma {:induction false} DuplicateDeliveryIdempotent(s: Snapshot, curVal: int, curGeneration: int, ops: seq<Op>)
    requires |ops| > 0
    requires forall i :: 0 <= i < |ops| ==> ops[i] == RemotePush(curVal, curGeneration)
    ensures Run(s, ops) == Merge(s, curVal, curGeneration).state
  {
    var once := Merge(s, curVal, curGeneration).state;
    assert Run(s, ops) == Run(once, ops[1..]);
    StalePushesIgnored(once, ops[1..]);
  }

  /** A push delivered a second time is not adopted and leaves the cell as it is. */
  lemma MergeIdempotent(s: Snapshot, curVal: int, curGeneration: int)
    ensures var once := Merge(s, curVal, curGeneration).state;
            Merge(once, curVal, curGeneration) == MergeResult(once, false)
  {
  }

  /** After any sequence of pushes the cell holds the highest generation seen
      (its own or a pushed one), and the pair it holds is its own or one that
      was pushed: the number always belongs to the highest generation. */
  lemma {:induction false} PushesKeepHighest(s: Snapshot, ops: seq<Op>)
    requires OnlyPushes(ops)
    ensures Run(s, ops).generation >= s.generation
    ensures forall i :: 0 <= i < |ops| ==> ops[i].curGeneration <= Run(s, ops).generation
    ensures Run(s, ops) == s ||
            exists i :: 0 <= i < |ops| && Run(s, ops) == Snapshot(ops[i].curVal, ops[i].curGeneration)
    decreases |ops|
  {
    if ops != [] {
      var s' := Apply(s, ops[0]);
      var rest := ops[1..];
      var r := Run(s', rest);
      assert OnlyPushes(rest) by {
        forall i | 0 <= i < |rest| ensures rest[i].RemotePush? {
          assert rest[i] == ops[i + 1];
        }
      }
      PushesKeepHighest(s', rest);
      assert r == Run(s, ops);
      forall i | 0 <= i < |ops| ensures ops[i].curGeneration <= r.generation {
        if i > 0 {
          assert ops[i] == rest[i - 1];
        }
      }
      if r == s' {
        if s' != s {
          assert r == Snapshot(ops[0].curVal, ops[0].curGeneration);
        }
      } else {
        var j :| 0 <= j < |rest| && r == Snapshot(rest[j].curVal, rest[j].curGeneration);
        assert ops[j + 1] == rest[j];
      }
    }
  }

  /** Two pushes with different generations give the same cell in either order. */
  lemma DistinctGenerationsCommute(s: Snapshot, a: Snapshot, b: Snapshot)
    requires a.generation != b.generation
    ensures Merge(Merge(s, a.number, a.generation).state, b.number, b.generation).state
         == Merge(Merge(s, b.number, b.generation).state, a.number, a.generation).state
  {
  }

  /** Two pushes with the same generation and different numbers do not commute:
      the first to arrive wins, so the register is lossy on ties. */
  lemma EqualGenerationsFirstWins(s: Snapshot, v1: int, v2: int, g: int)
    requires g > s.generation && v1 != v2
    ensures Merge(Merge(s, v1, g).state, v2, g).state == Snapshot(v1, g)
    ensures Merge(Merge(s, v2, g).state, v1, g).state == Snapshot(v2, g)
  {
  }

  /** One push from a to b brings b up to a's generation, and b ends equal to a
      exactly when a is strictly newer or the two are identical; an exchange both ways makes the two
      cells equal unless they hold different numbers at the same generation. */
  lemma PushExchangeConverges(a: Snapshot, b: Snapshot)
    ensures var b' := Merge(b, a.number, a.generation).state;
            b'.generation == (if a.generation > b.generation then a.generation else b.generation) &&
            (b' == a <==> a.generation > b.generation || a == b)
    ensures var b' := Merge(b, a.number, a.generation).state;
            var a' := Merge(a, b'.number, b'.generation).state;
            a.generation != b.generation || a == b ==> a' == b'
  {
  }

  /** From (5, 3): a push (9, 3) changes nothing, a push (9, 4) gives (9, 4),
      and a local write of 7 then gives (7, 5). */
  lemma StaleThenNewerPushThenWrite()
    ensures var s := Snapshot(5, 3);
            var ops := [RemotePush(9, 3), RemotePush(9, 4), LocalWrite(7)];
            Run(s, ops[..1]) == Snapshot(5, 3) &&
            Run(s, ops[..2]) == Snapshot(9, 4) &&
            Run(s, ops) == Snapshot(7, 5)
  {
    var ops := [RemotePush(9, 3), RemotePush(9, 4), LocalWrite(7)];
    assert ops[..1] == [RemotePush(9, 3)];
    assert ops[..2] == [RemotePush(9, 3), RemotePush(9, 4)];
    assert [RemotePush(9, 3), RemotePush(9, 4)][1..] == [RemotePush(9, 4)];
    assert Run(Snapshot(5, 3), [RemotePush(9, 4)]) == Snapshot(9, 4);
  }

  // ---------------------------------------------------------------------------
  // The generation as Go's 64-bit int
  // ---------------------------------------------------------------------------

  const MinInt64: int := -0x8000_0000_0000_0000
  const MaxInt64: int := 0x7fff_ffff_ffff_ffff

  /** Two's-complement wrap-around of a 64-bit signed integer. */
  function WrapInt64(x: int): int {
    (x - MinInt64) % 0x1_0000_0000_0000_0000 + MinInt64
  }

  /** setValue as written, with `Generation + 1` on a 64-bit int. */
  function WriteInt64(s: Snapshot, newVal: int): (r: Snapshot)
    ensures r.number == newVal
    ensures MinInt64 <= r.generation <= MaxInt64
    ensures (r.generation - (s.generation + 1)) % 0x1_0000_0000_0000_0000 == 0
  {
    Snapshot(newVal, WrapInt64(s.generation + 1))
  }

  /** Below the largest int, the 64-bit write is the unbounded one. */
  lemma WriteInt64BelowMax(s: Snapshot, newVal: int)
    requires MinInt64 <= s.generation < MaxInt64
    ensures WriteInt64(s, newVal) == Write(s, newVal)
  {
  }

  /** A push may carry any int as its generation. Once a cell has adopted the
      largest one, a local write wraps its generation to the smallest int: the
      generation decreases, and the next push of the peers' copy overwrites the
      write, which is lost. */
  lemma WriteInt64WrapsAtMax()
    ensures var s := Merge(Initial(0), 0, MaxInt64).state;
            var w := WriteInt64(s, 7);
            w.generation == MinInt64 && w.generation < s.generation &&
            Merge(w, 0, MaxInt64) == MergeResult(s, true)
  {
    var s := Merge(Initial(0), 0, MaxInt64).state;
    assert s.generation + 1 - MinInt64 == 0x1_0000_0000_0000_0000;
  }

  // ---------------------------------------------------------------------------
  // The cell as the program keeps it: two fields updated in place
  // ---------------------------------------------------------------------------

  class OneAndOnlyNumber {
    var Number: int
    var Generation: int

    /** The pair the two fields hold. */
    function State(): Snapshot
      reads this
    {
      Snapshot(Number, Generation)
    }

    /** InitTheNumber: a new cell holding `val` at generation 0. */
    constructor (val: int)
      ensures Number == val && Generation == 0
      ensures State() == Initial(val)
    {
      Number := val;
      Generation := 0;
    }

    /** A local write: the number becomes `newVal` and the generation advances by
        exactly one, also when `newVal` equals the old number. */
    method SetValue(newVal: int)
      modifies this
      ensures Number == newVal && Generation == old(Generation) + 1
      ensures State() == Write(old(State()), newVal)
    {
      Number := newVal;
      Generation := Generation + 1;
    }

    /** A snapshot read: the current pair, and nothing changes. */
    method GetValue() returns (number: int, generation: int)
      ensures number == Number && generation == Generation
      ensures Snapshot(number, generation) == State()
    {
      return Number, Generation;
    }

    /** An incoming push: adopted, and reported so, exactly when its generation is
        strictly newer than the cell's; otherwise (the tie included) nothing changes. */
    method NotifyValue(curVal: int, curGeneration: int) returns (changed: bool)
      modifies this
      ensures changed <==> curGeneration > old(Generation)
      ensures changed ==> Number == curVal && Generation == curGeneration
      ensures !changed ==> Number == old(Number) && Generation == old(Generation)
      ensures MergeResult(State(), changed) == Merge(old(State()), curVal, curGeneration)
    {
      if curGeneration > Generation {
        Generation := curGeneration;
        Number := curVal;
        return true;
      }
      return false;
    }
  }
}
