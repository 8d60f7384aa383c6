# go-hello-serf: the gossiped number, in Dafny

go-hello-serf runs a cluster of nodes that agree on a single number. Each node
holds the number with a generation counter (type `oneAndOnlyNumber`). A local
write (`setValue`) stores a new number and advances the generation by one. Every
two seconds a node pushes its pair to a few live peers (`getClusterMembers`,
`notifyMembers`, `notifyMember`). A receiving node adopts the pushed pair only
when its generation is strictly newer (`notifyValue`). This makes the number a
last-writer-wins register spread by gossip. The file also has a small
byte-string reversal, `reverse`.

This project models that core of `main.go`:

- `register.dfy`, module `Register`. The cell is class `OneAndOnlyNumber`, whose
  fields `Number` and `Generation` are updated in place by `SetValue` and
  `NotifyValue`. It is proved against the pure register (`Snapshot`, `Write`,
  `Merge`), and the lemmas are stated on the pure register over whole sequences
  of calls (`Op`, `Run`). It also holds the 64-bit wrap-around of the
  generation; see Findings.
- `membership.dfy`, module `Membership`. The live-peer filter of
  `getClusterMembers`: a loop (`GetClusterMembers`) proved equal to a filter
  function (`LivePeers`), with the filter's properties.
- `selection.dfy`, module `Selection`. The choice of push targets in
  `notifyMembers` (`TargetIndices`, `SelectTargets`), and the pushes a round
  builds (`NotifyMembers`, `NotifyMember`). The random draw `rand.Int()` is a
  parameter `draw`, and the start index is `draw % n` as in the source.
- `text.dfy`, module `Text`. `reverse` as written (`Reverse`, `GoReverse`) and
  the byte reversal it was evidently meant to be (`ReverseBytes`, `Mirror`).

Points of `main.go` the model keeps as they are:

- The generation is Go's signed `int`, and a push may carry any int.
- Each push of a round reads the cell itself (`notifyMember` calls
  `getValue`). In a sequential model every push of a round carries the same
  pair, and `NotifyMembers` states that.
- The small-cluster test is the literal `len(otherMembers) <= 2`. The wide
  branch uses the constant `MembersToNotify`, which is also 2.

Go's `int` is modelled as an unbounded `int` in the class. This is the counter
the program evidently intends. The 64-bit behaviour of `Generation + 1` is
modelled separately (`WriteInt64`) and reported under Findings.

## Model

| member | source | states |
|---|---|---|
| `Register.OneAndOnlyNumber.constructor` | main.go:33-37 | InitTheNumber: a new cell holds the given number at generation 0 |
| `Register.OneAndOnlyNumber.SetValue` | main.go:39-44 | the number becomes the new value and the generation is exactly one more than before, even when the value is unchanged; the new pair is `Write` of the old one |
| `Register.OneAndOnlyNumber.GetValue` | main.go:46-50 | returns the pair the cell holds and changes nothing |
| `Register.OneAndOnlyNumber.NotifyValue` | main.go:52-61 | returns true exactly when the pushed generation is strictly greater than the cell's, and then the cell is exactly the pushed pair; otherwise, the equal-generation tie included, both fields are unchanged; the result is `Merge` of the old pair |
| `Register.GenerationCountsWrites` | main.go:39-61 | over any sequence of setValue/notifyValue calls, the generation grows by at least the number of local writes |
| `Register.GenerationNeverDecreases` | main.go:39-61 | the generation after any prefix of a call sequence is at most the generation after any longer prefix |
| `Register.RunAppend` | main.go:39-61 | running two call sequences one after the other is running their concatenation |
| `Register.StalePushesIgnored` | main.go:52-61 | any number of pushes whose generation is at most the cell's leave the cell unchanged |
| `Register.DuplicateDeliveryIdempotent` | main.go:52-61 | delivering the same push one or more times gives the same cell as delivering it once |
| `Register.MergeIdempotent` | main.go:52-61 | a second delivery of a push is not adopted and leaves the cell as the first left it |
| `Register.PushesKeepHighest` | main.go:52-61 | after any sequence of pushes the generation is at least the cell's own and every pushed one, and the pair is the cell's own or one of the pushed pairs, so the number belongs to the highest generation seen |
| `Register.DistinctGenerationsCommute` | main.go:53-58 | two pushes with different generations give the same cell in either order |
| `Register.EqualGenerationsFirstWins` | main.go:53-60 | two newer pushes with the same generation and different numbers do not commute: the first to arrive is kept |
| `Register.PushExchangeConverges` | main.go:52-61 | a push from a to b raises b to the larger generation and makes b equal to a exactly when a's generation is strictly greater or the two cells are identical; pushes both ways make the cells equal unless they hold different numbers at one generation |
| `Register.StaleThenNewerPushThenWrite` | main.go:39-61 | from (5, 3): a push (9, 3) changes nothing, a push (9, 4) gives (9, 4), a local write of 7 then gives (7, 5) |
| `Register.WriteInt64` | main.go:43 | setValue on a 64-bit int: the number is the new value, the generation stays within the 64-bit range and is congruent to the old generation plus one modulo 2^64 |
| `Register.WriteInt64BelowMax` | main.go:43 | below the largest 64-bit int, the 64-bit write equals the unbounded write |
| `Register.WriteInt64WrapsAtMax` | main.go:43 | after adopting a push with the largest 64-bit generation, a local write wraps the generation to the smallest int, and a peer's push of the old pair then overwrites the write |
| `Membership.LivePeers` | main.go:104-108 | the filter result is no longer than the member list and holds only members that are not the local node and are alive |
| `Membership.GetClusterMembers` | main.go:95-110 | the loop returns exactly `LivePeers` of the members |
| `Membership.LivePeersMembership` | main.go:104-108 | a member is in the result if and only if it is in the member list, is not the local node, and is alive |
| `Membership.LivePeersConcat` | main.go:104-108 | the filter keeps order: the result for a concatenation is the result for the first part followed by the result for the second |
| `Membership.LivePeersIdempotent` | main.go:104-108 | filtering the result again changes nothing |
| `Selection.TargetIndices` | main.go:131-148 | a round targets all n peers when n is at most 2, otherwise MembersToNotify of them; every target index is in [0, n) and no index is targeted twice |
| `Selection.SmallClusterTargetsAll` | main.go:131-137 | with at most two peers, every peer is a target |
| `Selection.LargeClusterTargetsWindow` | main.go:138-148 | with more than two peers, exactly 2 targets are chosen; the first is the drawn start `draw % n` and the second is the next peer, wrapping at the end |
| `Selection.EveryWindowStartCanBeDrawn` | main.go:139 | with more than two peers, every peer index can start the window |
| `Selection.SelectTargets` | main.go:131-148 | the selected peers number FanOut(n), each is one of the live peers, and no two have the same name when the live peers' names are distinct |
| `Selection.NotifyMember` | main.go:113-115 | a push goes to the given address with the cell's current number and generation and the notifying node's name |
| `Selection.NotifyMembers` | main.go:128-149 | a round builds exactly FanOut(n) pushes, the i-th to the i-th selected peer, each carrying the cell's pair, and does not change the cell |
| `Text.RuneBytes` | main.go:160 | Go's `string(b)` for a byte: a byte below 0x80 stays one byte; from 0x80 on it becomes a lead byte 0xC2 or 0xC3 and a continuation byte in [0x80, 0xC0) that decode back to b |
| `Text.Reverse` | main.go:157-163 | the loop as written returns `GoReverse`: the UTF-8 encodings of the bytes, last byte first |
| `Text.GoReverseLength` | main.go:157-163 | reverse as written returns as many bytes as its input plus one for each input byte of 0x80 or more |
| `Text.NonAsciiReverseBreaks` | main.go:160 | reverse as written turns the two bytes of "é" into the four bytes of "©Ã", and reversing again does not restore "é" |
| `Text.AsciiReverseIsMirror` | main.go:157-163 | on ASCII input, reverse as written is the byte reversal |
| `Text.AsciiReverseInvolution` | main.go:157-163 | on ASCII input, reverse as written undoes itself |
| `Text.ReverseBytes` | main.go:157-163 | the byte-appending loop returns `Mirror` of its input: the same length, with the byte at k moved to `|s| - 1 - k` |
| `Text.Mirror` | main.go:157-163 | the byte reversal keeps the length |
| `Text.MirrorAt` | main.go:157-163 | the byte reversal puts the byte at k at `|s| - 1 - k` |
| `Text.MirrorInvolution` | main.go:157-163 | the byte reversal undoes itself |

## Left out

- The reader/writer mutex of `oneAndOnlyNumber` is not modelled, because the model is sequential. This includes the unguarded read of `Generation` in `notifyValue` before the lock is taken (main.go:53-54), a check-then-act race between concurrent pushes.
- The cluster library: creating, joining and leaving the cluster, the event channel and `serfEventHandler` (main.go:68-92, 182-202, 272-283). They are a foreign library plus logging. The membership list and the local node's name are parameters of `GetClusterMembers`.
- `queryResponse` (main.go:166-179) is not modelled. It depends on the library's query type and on the wall clock.
- The HTTP request of `notifyMember` (main.go:115-124) is not modelled. It is represented by the `Push` value that holds its address, number, generation and notifier. Sending it, and its possible failure, is I/O.
- The errgroup fan-out, the context deadline and cancellation, and the fire-and-forget `go notifyMembers` (main.go:129, 151-154, 318-319) are not modelled. They are concurrency. The model builds the pushes in order, and no push depends on another.
- The handlers `httpGet`, `httpSet` and `httpNotify`, the JSON encoding, the `strconv.Atoi` parsing and the router (main.go:209-262) are not modelled. They are I/O; their only effect on the core is to call `SetValue` and `NotifyValue`.
- `rand.Int()` (main.go:139) is not modelled. Its result is the parameter `draw`.
- The tickers and the main `select` loop (main.go:299-331) are not modelled. They are scheduling and wall-clock time.
- The round's errgroup context is not modelled. The first push that fails cancels it, which aborts the other push's request if that request is still in flight (main.go:119-120, 129). Push failures are transport I/O. The model has no failures, so its pushes are independent.

## Findings

| source | as written | input that shows it | evidently intended | confidence | as-written member | corrected member |
|---|---|---|---|---|---|---|
| main.go:43 | `n.Generation + 1` on Go's 64-bit `int` wraps past the largest int | `notifyValue(0, 9223372036854775807)` (any int is accepted from a push) then `setValue(7)`: the generation becomes -9223372036854775808. A peer's push of generation 9223372036854775807 is then adopted, and the write is lost | every local write strictly increases the generation by one | not executed; medium (holds where Go's `int` is 64 bits) | `Register.WriteInt64WrapsAtMax` | `Register.OneAndOnlyNumber.SetValue` |
| main.go:160 | `string(s[i])` converts the byte to the UTF-8 encoding of the rune with that code point, so every byte of 0x80 or more becomes two bytes | `reverse("é")`, bytes C3 A9, returns C2 A9 C3 83 ("©Ã"): four bytes, and reversing again does not give "é" | a reversal that keeps the length, mirrors the indices and undoes itself | not executed; high | `Text.NonAsciiReverseBreaks` | `Text.ReverseBytes` |
