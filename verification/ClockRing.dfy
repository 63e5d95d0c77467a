/**
 The CLOCK ring of `w11/clock-example.c`: a fixed array, the hand, and the bits of page table
 entries.  Read from the slot after the hand, the ring is some empty slots and then the
 second-chance queue, oldest page first.
 */
module ClockRing {
  import opened Common
  import opened SecondChance

  function Turn(r: seq<Node>, j: nat): seq<Node> {
    if j <= |r| then r[j..] + r[..j] else r
  }

  function NextHand(n: nat, hand: int): int {
    if hand + 1 < n then hand + 1 else 0
  }

  lemma NextHandIs(n: nat, hand: int)
    requires -1 <= hand < n && 0 < n
    ensures (hand + 1) % n == NextHand(n, hand)
  {
  }

  lemma TurnNext(r: seq<Node>, j: nat)
    requires j < |r|
    ensures Turn(r, j)[0] == r[j] && Turn(r, j)[1..] + [Turn(r, j)[0]] == Turn(r, j + 1)
  {
  }

  /** The ring holds `e` empty slots and then a queue. */
  ghost predicate RingOk(t: seq<Pte>, r: seq<Node>, e: nat) {
    e <= |r| && (forall i | 0 <= i < e :: !Live(r[i])) && QueueOk(t, r[e..])
  }

  /** `RingOk`, kept folded. */
  ghost predicate Sound(t: seq<Pte>, r: seq<Node>, e: nat) {
    forall k | Look(k) :: RingOk(t, r, e)
  }

  lemma FirstSlot(t: seq<Pte>, r: seq<Node>, e: nat)
    requires Sound(t, r, e) && r != []
    ensures e <= |r| && (Live(r[0]) <==> e == 0) && r[0..] == r
  {
    assert Look(0);
    assert e == 0 ==> r[e..][0] == r[0];
  }

  /** An empty slot takes the new page, which is then the youngest. */
  lemma Filled(t: seq<Pte>, r: seq<Node>, e: nat, n: Node)
    requires Sound(t, r, e) && 0 < e <= |r| && Live(n) && n.pte < |t| && Fresh(r[e..], n)
    ensures Queue(r[1..] + [n], e - 1) == Queue(r, e) + [n] && Sound(InsertedBits(t, n), r[1..] + [n], e - 1)
  {
    assert Look(0);
    var r' := r[1..] + [n];
    assert r'[e - 1..] == r[e..] + [n];
    assert forall i | 0 <= i < e - 1 :: r'[i] == r[i + 1];
    QueueAdd(t, r[e..], n);
    SameLength(t, InsertedBits(t, n), r'[e - 1..]);
  }

  lemma QueueAdd(t: seq<Pte>, q: seq<Node>, n: Node)
    requires QueueOk(t, q) && Fresh(q, n) && Live(n) && n.pte < |t|
    ensures QueueOk(t, q + [n])
  {
  }

  lemma SameLength(t: seq<Pte>, u: seq<Pte>, q: seq<Node>)
    requires QueueOk(t, q) && |u| == |t|
    ensures QueueOk(u, q)
  {
  }

  /** Replacement keeps the ring full of different pages. */
  lemma Evicted(t: seq<Pte>, r: seq<Node>, n: Node)
    requires Sound(t, r, 0) && r != [] && Live(n) && n.pte < |t| && Fresh(Queue(r, 0), n)
    ensures Sound(ReplacedBits(t, r, n), Replaced(t, r, n), 0) && Queue(Replaced(t, r, n), 0) == Replaced(t, r, n)
    ensures Queue(r, 0) == r
  {
    assert Look(0);
    assert r[0..] == r;
    var v := Victim(t, r);
    var rest := r[v + 1..] + r[..v];
    assert forall i | 0 <= i < |rest| :: rest[i] == r[if v + 1 + i < |r| then v + 1 + i else v + 1 + i - |r|];
    assert QueueOk(t, rest);
    QueueAdd(t, rest, n);
    SameLength(t, ReplacedBits(t, r, n), Replaced(t, r, n));
    var r' := Replaced(t, r, n);
    assert r'[0..] == r';
  }

  lemma FullQueue(t: seq<Pte>, r: seq<Node>)
    requires Sound(t, r, 0)
    ensures QueueOk(t, r)
  {
    assert Look(0);
    assert r[0..] == r;
  }

  /** What the loop of clk_insert has done after passing `j` pages. */
  ghost predicate Passed(t0: seq<Pte>, t: seq<Pte>, r: seq<Node>, j: nat) {
    j <= |r| && t == Cleared(t0, r, j) && forall i | 0 <= i < j :: Referenced(t0, r[i])
  }

  /** A page not yet passed has its bit as before; after a full turn every bit is cleared. */
  lemma PassedBit(t0: seq<Pte>, t: seq<Pte>, r: seq<Node>, j: nat)
    requires Passed(t0, t, r, j) && QueueOk(t0, r) && r != []
    ensures j < |r| ==> Referenced(t, r[j]) == Referenced(t0, r[j])
    ensures j == |r| ==> !Referenced(t, r[0])
  {
    ClearedAt(t0, r, j, r[if j < |r| then j else 0].pte);
  }

  /** The loop of clk_insert after passing `j` pages, with the ring turned by as much.  Kept folded. */
  ghost predicate Sweeping(t0: seq<Pte>, t: seq<Pte>, r: seq<Node>, e: nat, ring: seq<Node>, j: nat) {
    forall k | Look(k) :: Passed(t0, t, r, j) && ring == Turn(r, j) && (j > 0 ==> e == 0)
  }

  lemma SweepStart(t: seq<Pte>, r: seq<Node>, e: nat)
    ensures Sweeping(t, t, r, e, r, 0)
  {
    assert Turn(r, 0) == r;
  }

  /** What the loop finds under the hand, and what passing it does. */
  lemma SweepStep(t0: seq<Pte>, t: seq<Pte>, r: seq<Node>, e: nat, ring: seq<Node>, j: nat)
    requires Sound(t0, r, e) && r != [] && Sweeping(t0, t, r, e, ring, j)
    ensures |ring| == |r| && (Live(ring[0]) <==> e == 0) && Last(Turned(ring)) == ring[0]
    ensures var x := ring[0];
            Live(x) && Referenced(t, x) ==>
              j < |r| && Sweeping(t0, Set(t, x.pte, At(t, x.pte).(a := false)), r, e, Turned(ring), j + 1)
    ensures j <= |r| && (j > 0 ==> e == 0)
  {
    assert Look(0);
    FirstSlot(t0, r, e);
    if e == 0 {
      FullQueue(t0, r);
      PassedBit(t0, t, r, j);
      if j < |r| {
        TurnNext(r, j);
      } else {
        assert Turn(r, j) == r;
      }
    } else {
      assert Turn(r, j) == r;
    }
  }

  /** Ending the loop on an unreferenced page: it is the victim of second-chance replacement. */
  lemma SweepEnd(t0: seq<Pte>, t: seq<Pte>, r: seq<Node>, ring: seq<Node>, j: nat, n: Node)
    requires Sound(t0, r, 0) && r != [] && Sweeping(t0, t, r, 0, ring, j) && |ring| == |r| && !Referenced(t, ring[0])
    ensures j == Spared(t0, r) && ring[1..] + [n] == Replaced(t0, r, n)
    ensures var w := Set(t, ring[0].pte, Encrypt(At(t, ring[0].pte)));
            Set(w, n.pte, Decrypt(At(w, n.pte))) == ReplacedBits(t0, r, n)
  {
    assert Look(0);
    FullQueue(t0, r);
    VictimIs(t0, t, r, j, n);
  }

  /** What clk_insert makes of the ring and of the page table in `moves` moves of the hand. */
  ghost predicate Inserted(t: seq<Pte>, r: seq<Node>, e: nat, n: Node, t': seq<Pte>, r': seq<Node>, e': nat,
                           moves: nat)
  {
    && r != [] && Sound(t', r', e') && e' <= |r'| == |r|
    && (e > 0 ==> e' == e - 1 && moves == 1 && Queue(r', e') == Queue(r, e) + [n] && t' == InsertedBits(t, n))
    && (e == 0 ==> e' == 0 && Queue(r, e) == r && Queue(r', e') == Replaced(t, r, n))
    && (e == 0 ==> t' == ReplacedBits(t, r, n) && moves == Spared(t, r) + 1)
  }

  /** `Inserted`, kept folded. */
  ghost predicate Inserts(t: seq<Pte>, r: seq<Node>, e: nat, n: Node, t': seq<Pte>, r': seq<Node>, e': nat,
                          moves: nat)
  {
    forall k | Look(k) :: Inserted(t, r, e, n, t', r', e', moves)
  }

  lemma InsertsIf(t: seq<Pte>, r: seq<Node>, e: nat, n: Node, t': seq<Pte>, r': seq<Node>, e': nat, moves: nat)
    requires Inserted(t, r, e, n, t', r', e', moves)
    ensures Inserts(t, r, e, n, t', r', e', moves)
  {
  }

  lemma InsertMeans(t: seq<Pte>, r: seq<Node>, e: nat, n: Node, t': seq<Pte>, r': seq<Node>, e': nat, moves: nat)
    requires Inserts(t, r, e, n, t', r', e', moves)
    ensures r != [] && Sound(t', r', e') && e' <= |r'| == |r|
    ensures e > 0 ==> e' == e - 1 && Queue(r', e') == Queue(r, e) + [n]
    ensures e > 0 ==> t' == InsertedBits(t, n) && moves == 1
    ensures e == 0 ==> e' == 0 && Queue(r, e) == r && Queue(r', e') == Replaced(t, Queue(r, e), n)
    ensures e == 0 ==> t' == ReplacedBits(t, Queue(r, e), n) && moves == Spared(t, Queue(r, e)) + 1
  {
    assert Look(0);
  }

  /** A page that can be inserted; kept folded. */
  ghost predicate IsNew(t: seq<Pte>, r: seq<Node>, e: nat, n: Node) {
    forall k | Look(k) :: Live(n) && n.pte < |t| && Fresh(Queue(r, e), n)
  }

  /** The page table after the page of slot `x` is encrypted. */
  function Vacated(t: seq<Pte>, x: Node): seq<Pte> {
    Set(t, x.pte, Encrypt(At(t, x.pte)))
  }

  /** The new page takes the oldest slot; kept folded. */
  ghost predicate Exchanged(t: seq<Pte>, e: nat, x: seq<Node>, n: Node, t': seq<Pte>, r': seq<Node>, e': nat) {
    forall k | Look(k) ::
      && x != [] && r' == x[1..] + [n] && (if Live(x[0]) then e' == e else e' == e - 1)
      && t' == InsertedBits(if Live(x[0]) then Vacated(t, x[0]) else t, n)
  }

  lemma NewMeans(t: seq<Pte>, r: seq<Node>, e: nat, n: Node)
    requires IsNew(t, r, e, n)
    ensures Live(n) && n.pte < |t| && Fresh(Queue(r, e), n)
  {
    assert Look(0);
  }

  lemma ExchangeMeans(t: seq<Pte>, e: nat, x: seq<Node>, n: Node, t': seq<Pte>, r': seq<Node>, e': nat)
    requires Exchanged(t, e, x, n, t', r', e')
    ensures x != [] && r' == x[1..] + [n] && (if Live(x[0]) then e' == e else e' == e - 1)
    ensures t' == InsertedBits(if Live(x[0]) then Vacated(t, x[0]) else t, n)
  {
    assert Look(0);
  }

  /** After the loop: what the rest of clk_insert makes of the ring and of the page table. */
  lemma InsertDone(t0: seq<Pte>, t: seq<Pte>, r: seq<Node>, e: nat, x: seq<Node>, moves: nat, n: Node,
                   t': seq<Pte>, r': seq<Node>, e': nat)
    requires Sound(t0, r, e) && IsNew(t0, r, e, n)
    requires |x| == |r| > 0 && 1 <= moves && Sweeping(t0, t, r, e, x, moves - 1) && (Live(x[0]) <==> e == 0)
    requires e == 0 ==> !Referenced(t, x[0])
    requires e > 0 ==> e <= |r| && moves == 1 && x == r && t == t0
    requires Exchanged(t, e, x, n, t', r', e')
    ensures Inserts(t0, r, e, n, t', r', e', moves)
  {
    ExchangeMeans(t, e, x, n, t', r', e');
    if e > 0 {
      FillDone(t0, r, e, n);
    } else {
      EvictDone(t0, t, r, x, moves, n);
    }
  }

  lemma FillDone(t: seq<Pte>, r: seq<Node>, e: nat, n: Node)
    requires Sound(t, r, e) && IsNew(t, r, e, n) && 0 < e <= |r|
    ensures Inserts(t, r, e, n, InsertedBits(t, n), r[1..] + [n], e - 1, 1)
  {
    NewMeans(t, r, e, n);
    Filled(t, r, e, n);
    InsertsIf(t, r, e, n, InsertedBits(t, n), r[1..] + [n], e - 1, 1);
  }

  lemma EvictDone(t0: seq<Pte>, t: seq<Pte>, r: seq<Node>, x: seq<Node>, moves: nat, n: Node)
    requires Sound(t0, r, 0) && IsNew(t0, r, 0, n) && |x| == |r| > 0 && !Referenced(t, x[0])
    requires 1 <= moves && Sweeping(t0, t, r, 0, x, moves - 1)
    ensures Inserts(t0, r, 0, n, InsertedBits(Vacated(t, x[0]), n), x[1..] + [n], 0, moves)
  {
    NewMeans(t0, r, 0, n);
    SweepEnd(t0, t, r, x, moves - 1, n);
    Evicted(t0, r, n);
    InsertsIf(t0, r, 0, n, ReplacedBits(t0, r, n), Replaced(t0, r, n), 0, moves);
  }

  lemma VictimIs(t0: seq<Pte>, t: seq<Pte>, r: seq<Node>, j: nat, n: Node)
    requires Passed(t0, t, r, j) && QueueOk(t0, r) && r != [] && !Referenced(t, Turn(r, j)[0])
    ensures j == Spared(t0, r) && Turn(r, j)[0] == r[Victim(t0, r)]
    ensures Turn(r, j)[1..] + [n] == Replaced(t0, r, n)
  {
    VictimTurn(t0, t, r, j);
    TurnReplaced(t0, r, j, n);
  }

  lemma VictimTurn(t0: seq<Pte>, t: seq<Pte>, r: seq<Node>, j: nat)
    requires Passed(t0, t, r, j) && QueueOk(t0, r) && r != [] && !Referenced(t, Turn(r, j)[0])
    ensures j == Spared(t0, r) && Turn(r, j)[0] == r[Victim(t0, r)]
  {
    PassedBit(t0, t, r, j);
    if j < |r| {
      SparedIs(t0, r, j);
    }
  }

  lemma TurnReplaced(t0: seq<Pte>, r: seq<Node>, j: nat, n: Node)
    requires r != [] && j == Spared(t0, r)
    ensures Turn(r, j)[1..] + [n] == Replaced(t0, r, n)
  {
    if j < |r| {
      TurnNext(r, j);
      assert Turn(r, j)[1..] == r[j + 1..] + r[..j];
    } else {
      assert Turn(r, j) == r;
    }
  }

  // ----- clk_remove

  function Without(q: seq<Node>, k: nat): seq<Node> {
    if k < |q| then q[..k] + q[k + 1..] else q
  }

  /** The array index of slot `k` of the ring. */
  function Slot(n: nat, hand: int, k: nat): int {
    if hand + 1 + k < n then hand + 1 + k else hand + 1 + k - n
  }

  lemma SlotNext(n: nat, hand: nat, k: nat)
    requires hand < n && k < n
    ensures var i := Slot(n, hand, k);
            0 <= i < n && (i == hand <==> k == n - 1) && (k + 1 < n ==> NextHand(n, i) == Slot(n, hand, k + 1))
  {
  }

  /** C's `a % n`, which truncates toward zero. */
  function Remainder(a: int, n: nat): int
    requires 0 < n
  {
    if 0 <= a then a % n else -(-a % n)
  }

  /** The index that the search of clk_remove visits after `i` turns. */
  function SearchIndex(hand: int, i: int, n: nat): int
    requires 0 < n
  {
    Remainder(hand + i, n)
  }

  /**
   Before the first insert the hand is -1, and the search of clk_remove then starts at index -1: it stays
   inside the array exactly if the hand has moved or the array has one slot.
   */
  lemma SearchStaysInside(hand: int, n: nat)
    requires -1 <= hand < n && 0 < n
    ensures (forall i | 0 <= i < n :: 0 <= SearchIndex(hand, i, n) < n) <==> 0 <= hand || n == 1
  {
    if hand == -1 && 1 < n {
      assert SearchIndex(hand, 0, n) == -1;
    } else {
      forall i | 0 <= i < n ensures 0 <= SearchIndex(hand, i, n) < n {
        SearchSlot(n, hand, i);
      }
    }
  }

  /** The search visits the youngest page first, then the ring from its start. */
  lemma SearchSlot(n: nat, hand: int, i: nat)
    requires -1 <= hand < n && i < n && (0 <= hand || n == 1)
    ensures SearchIndex(hand, i, n) == Slot(n, hand, if i == 0 then n - 1 else i - 1)
  {
    if hand < 0 {
      assert SearchIndex(hand, i, n) == 0;
    } else if hand + i < n {
      assert (hand + i) % n == hand + i;
    } else {
      assert (hand + i) % n == hand + i - n;
    }
  }

  lemma SearchIndexed(n: nat, hand: int, i: nat)
    requires -1 <= hand < n && i < n && 0 <= SearchIndex(hand, i, n) && (i > 0 ==> 0 <= hand || n == 1)
    ensures 0 <= hand || n == 1
    ensures SearchIndex(hand, i, n) == Slot(n, hand, if i == 0 then n - 1 else i - 1)
  {
    if 0 <= hand || n == 1 {
      SearchSlot(n, hand, i);
    }
  }

  predicate ShiftedAt(r: seq<Node>, m: nat, k: nat, r': seq<Node>, i: nat) {
    i < |r| && i < |r'| ==> r'[i] == if m <= i < k && i + 1 < |r| then r[i + 1] else r[i]
  }

  /** `r'` is the ring `r` with slots `m` to `k` shifted by one. */
  ghost predicate IsShifted(r: seq<Node>, m: nat, k: nat, r': seq<Node>) {
    |r'| == |r| && forall i: nat :: ShiftedAt(r, m, k, r', i)
  }

  predicate RemovedAt(r: seq<Node>, m: nat, r': seq<Node>, i: nat) {
    0 < i < |r| && i < |r'| ==> r'[i] == if i <= m then r[i - 1] else r[i]
  }

  /** `r'` is the ring `r` without the page in slot `m`, and with an empty slot in front. */
  ghost predicate IsRemoved(r: seq<Node>, m: nat, r': seq<Node>) {
    |r'| == |r| > 0 && !Live(r'[0]) && forall i: nat :: RemovedAt(r, m, r', i)
  }

  lemma ShiftOn(r: seq<Node>, m: nat, k: nat, r': seq<Node>)
    requires IsShifted(r, m, k, r') && m <= k && k + 1 < |r|
    ensures IsShifted(r, m, k + 1, r'[k := r'[k + 1]])
  {
    var r2, k' := r'[k := r'[k + 1]], k + 1;
    assert ShiftedAt(r, m, k, r', k + 1);
    forall i: nat ensures ShiftedAt(r, m, k', r2, i) {
      assert ShiftedAt(r, m, k, r', i);
    }
  }

  lemma ShiftDone(r: seq<Node>, m: nat, r': seq<Node>, x: Node)
    requires m < |r| && IsShifted(r, m, |r| - 1, r') && !Live(x)
    ensures IsRemoved(r, m, PulledBack(WithLast(r', x)))
  {
    var z := PulledBack(WithLast(r', x));
    forall i: nat ensures RemovedAt(r, m, z, i) {
      if 0 < i < |r| {
        assert z[i] == r'[i - 1];
        assert ShiftedAt(r, m, |r| - 1, r', i - 1);
      }
    }
  }

  lemma WithoutOk(t: seq<Pte>, q: seq<Node>, k: nat)
    requires QueueOk(t, q) && k < |q|
    ensures QueueOk(t, Without(q, k))
  {
    var w := Without(q, k);
    assert forall i | 0 <= i < |w| :: w[i] == q[if i < k then i else i + 1];
  }

  lemma QueueWithout(r: seq<Node>, e: nat, m: nat, r': seq<Node>)
    requires e <= m < |r| && IsRemoved(r, m, r')
    ensures Queue(r', e + 1) == Without(Queue(r, e), m - e)
  {
    var a, b := Queue(r', e + 1), Without(Queue(r, e), m - e);
    assert |a| == |b|;
    forall i | 0 <= i < |a| ensures a[i] == b[i] {
      assert a[i] == r'[e + 1 + i] && RemovedAt(r, m, r', e + 1 + i);
    }
  }

  /** The ring after clk_remove: one more empty slot, and the queue without the page. */
  lemma RemovedOk(t: seq<Pte>, r: seq<Node>, e: nat, m: nat, t': seq<Pte>, r': seq<Node>, e': nat)
    requires Sound(t, r, e) && m < |r| && Live(r[m]) && IsRemoved(r, m, r') && t' == t && e' == e + 1
    ensures e' <= |r| && Sound(t', r', e') && HasPage(Queue(r, e), r[m].vpn)
    ensures forall k: nat | Numbered(Queue(r, e), k, r[m].vpn) :: Queue(r', e') == Without(Queue(r, e), k)
  {
    FoundPage(t, r, e, m);
    QueueWithout(r, e, m, r');
    StillSound(t, r, e, m, r');
  }

  lemma StillSound(t: seq<Pte>, r: seq<Node>, e: nat, m: nat, r': seq<Node>)
    requires Sound(t, r, e) && e <= m < |r| && IsRemoved(r, m, r') && Queue(r', e + 1) == Without(Queue(r, e), m - e)
    ensures Sound(t, r', e + 1)
  {
    assert RingOk(t, r, e) by {
      assert Look(0);
    }
    WithoutOk(t, Queue(r, e), m - e);
    forall i | 0 <= i < e + 1 ensures !Live(r'[i]) {
      assert RemovedAt(r, m, r', i);
    }
    assert RingOk(t, r', e + 1);
  }

  // ----- the ring in the array

  /** The ring after the hand moved. */
  function Turned(r: seq<Node>): seq<Node> {
    if r == [] then r else r[1..] + [r[0]]
  }

  function Last(r: seq<Node>): Node {
    if r == [] then Node(EMPTY, 0) else r[|r| - 1]
  }

  /** The ring with another page under the hand. */
  function WithLast(r: seq<Node>, n: Node): seq<Node> {
    if r == [] then r else r[|r| - 1 := n]
  }

  /** The ring after the hand moved back. */
  function PulledBack(r: seq<Node>): seq<Node> {
    if r == [] then r else [Last(r)] + r[..|r| - 1]
  }

  function Queue(r: seq<Node>, e: nat): seq<Node> {
    if e <= |r| then r[e..] else []
  }

  /** Read from the slot after the hand, the array is the ring `r`; the hand is -1 before the first insert. */
  ghost predicate Shown(s: seq<Node>, hand: int, r: seq<Node>) {
    && |r| == |s| && -1 <= hand < |s|
    && forall k: nat | k < |r| :: r[k] == s[Slot(|s|, hand, k)]
  }

  /** `Shown`, kept folded. */
  ghost predicate Shows(s: seq<Node>, hand: int, r: seq<Node>) {
    forall k | Look(k) :: Shown(s, hand, r)
  }

  lemma ShowsMove(s: seq<Node>, hand: int, r: seq<Node>)
    requires Shows(s, hand, r) && s != []
    ensures Shows(s, NextHand(|s|, hand), Turned(r))
  {
    assert Look(0);
    var h, r' := NextHand(|s|, hand), Turned(r);
    forall k: nat | k < |r'| ensures r'[k] == s[Slot(|s|, h, k)] {
      if k + 1 < |r| {
        assert r'[k] == r[k + 1];
      } else {
        assert r'[k] == r[0];
      }
    }
  }

  lemma ShowsSlot(s: seq<Node>, hand: int, r: seq<Node>, k: nat, x: Node)
    requires Shows(s, hand, r) && -1 <= hand < |s| && k < |s|
    ensures |r| == |s|
    ensures var i := Slot(|s|, hand, k); 0 <= i < |s| && s[i] == r[k] && Shows(s[i := x], hand, r[k := x])
  {
    assert Look(0);
    var i := Slot(|s|, hand, k);
    var s', r' := s[i := x], r[k := x];
    forall l: nat | l < |r'| ensures r'[l] == s'[Slot(|s'|, hand, l)] {
      assert r[l] == s[Slot(|s|, hand, l)];
    }
  }

  lemma ShowsBack(s: seq<Node>, hand: nat, r: seq<Node>)
    requires Shows(s, hand, r) && hand < |s|
    ensures Shows(s, if hand == 0 then |s| - 1 else hand - 1, PulledBack(r))
  {
    assert Look(0);
    var h, r' := if hand == 0 then |s| - 1 else hand - 1, PulledBack(r);
    forall k: nat | k < |r'| ensures r'[k] == s[Slot(|s|, h, k)] {
      var l := if k == 0 then |r| - 1 else k - 1;
      assert r'[k] == r[l] && Slot(|s|, h, k) == Slot(|s|, hand, l);
    }
  }

  class Clock {
    const size: nat          // CLOCKSIZE
    const queue: array<Node>
    var hand: int
    var pte: seq<Pte>
    ghost var ring: seq<Node>  // the slots from the one after the hand
    ghost var empty: nat       // how many of them are empty
    ghost var gone: set<nat>   // entries of pages that clk_remove took out

    ghost predicate Tied()
      reads this`hand, this`ring, queue
    {
      && 0 < size == queue.Length == |ring| && -1 <= hand < size
      && Shows(queue[..], hand, ring)
    }

    ghost predicate Valid()
      reads this, queue
    {
      Tied() && Sound(pte, ring, empty) && empty <= size && (hand == -1 ==> empty == size)
    }

    /** The pages in the ring, oldest first. */
    ghost function Pages(): seq<Node>
      reads this`ring, this`empty
    {
      Queue(ring, empty)
    }

    /** clk_clear. */
    constructor (size: nat, table: seq<Pte>)
      requires 0 < size
      ensures Valid() && fresh(queue) && this.size == size && pte == table && Pages() == [] && hand == -1 && gone == {}
    {
      this.size := size;
      queue := new Node[size](_ => Node(EMPTY, 0));
      hand, pte, empty, gone := -1, table, size, {};
      ring := seq(size, _ => Node(EMPTY, 0));
      new;
      assert queue[..] == ring;
    }

    // ----- what touches the array

    method Move()
      requires Tied()
      modifies this`hand, this`ring
      ensures Tied() && 0 <= hand && ring == Turned(old(ring))
    {
      ShowsMove(queue[..], hand, ring);
      NextHandIs(size, hand);
      hand := (hand + 1) % size;
      ring := Turned(ring);
    }

    /** The node in array slot `idx`, which is slot `k` of the ring. */
    method Read(idx: int, ghost k: nat) returns (n: Node)
      requires Tied() && k < size && idx == Slot(size, hand, k)
      ensures n == ring[k]
    {
      ShowsSlot(queue[..], hand, ring, k, Node(EMPTY, 0));
      n := queue[idx];
    }

    method Write(idx: int, n: Node, ghost k: nat)
      requires Tied() && 0 <= hand && k < size && idx == Slot(size, hand, k)
      modifies queue, this`ring
      ensures Tied() && ring == old(ring)[k := n]
    {
      ShowsSlot(queue[..], hand, ring, k, n);
      queue[idx] := n;
      assert queue[..] == old(queue[..])[idx := n];
      ring := ring[k := n];
    }

    /** The node under the hand. */
    method Under() returns (n: Node)
      requires Tied() && 0 <= hand
      ensures n == Last(ring)
    {
      SlotNext(size, hand, size - 1);
      n := Read(hand, size - 1);
    }

    method Place(n: Node)
      requires Tied() && 0 <= hand
      modifies queue, this`ring
      ensures Tied() && ring == WithLast(old(ring), n)
    {
      SlotNext(size, hand, size - 1);
      Write(hand, n, size - 1);
    }

    method Back()
      requires Tied() && 0 <= hand
      modifies this`hand, this`ring
      ensures Tied() && 0 <= hand && ring == PulledBack(old(ring))
    {
      ShowsBack(queue[..], hand, ring);
      hand := if hand == 0 then size - 1 else hand - 1;
      ring := PulledBack(ring);
    }

    // ----- clk_insert

    /**
     clk_insert: into an empty slot if there is one, and otherwise second-chance replacement.  The
     hand moves at most `size + 1` times.
     */
    method Insert(vpn: int, p: nat) returns (ghost moves: nat)
      requires Valid() && vpn != EMPTY && p < |pte| && Fresh(Pages(), Node(vpn, p))
      modifies this`hand, this`pte, this`empty, this`ring, queue
      ensures Valid() && 0 <= hand && 1 <= moves <= size + 1
      ensures old(empty) > 0 ==> empty == old(empty) - 1 && Pages() == old(Pages()) + [Node(vpn, p)]
      ensures old(empty) > 0 ==> pte == InsertedBits(old(pte), Node(vpn, p)) && moves == 1
      ensures old(empty) == 0 ==> empty == 0 && Pages() == Replaced(old(pte), old(Pages()), Node(vpn, p))
      ensures old(empty) == 0 ==> pte == ReplacedBits(old(pte), old(Pages()), Node(vpn, p))
      ensures old(empty) == 0 ==> moves == Spared(old(pte), old(Pages())) + 1
    {
      moves := Put(Node(vpn, p));
      InsertMeans(old(pte), old(ring), old(empty), Node(vpn, p), pte, ring, empty, moves);
    }

    method Put(n: Node) returns (ghost moves: nat)
      requires Valid() && IsNew(pte, ring, empty, n)
      modifies this`hand, this`pte, this`empty, this`ring, queue
      ensures Tied() && 0 <= hand && 1 <= moves <= size + 1
      ensures Inserts(old(pte), old(ring), old(empty), n, pte, ring, empty, moves)
    {
      ghost var r, e, x := ring, empty, ring;
      moves, x := Sweep();
      ghost var t := pte;
      Exchange(n, x);
      InsertDone(old(pte), t, r, e, x, moves, n, pte, ring, empty);
    }

    /** clk_insert after its loop: the new page takes the slot under the hand. */
    method Exchange(n: Node, ghost x: seq<Node>)
      requires Tied() && 0 <= hand && |x| == size && Passes(x, ring) && (Live(x[0]) <==> empty == 0)
      modifies this`pte, this`empty, this`ring, queue
      ensures Tied() && Exchanged(old(pte), old(empty), x, n, pte, ring, empty)
    {
      ExchangeUnder(x, ring, n);
      var slot := Under();
      Place(n);
      if slot.vpn == EMPTY {
        empty := empty - 1;
      } else {
        pte := Set(pte, slot.pte, Encrypt(At(pte, slot.pte)));
      }
      pte := Set(pte, n.pte, Decrypt(At(pte, n.pte)));
    }

    /**
     The loop of clk_insert up to its `break`: the slot under the hand is empty or its page is
     unreferenced.  `x` is the ring before the last move.
     */
    method Sweep() returns (ghost moves: nat, ghost x: seq<Node>)
      requires Valid()
      modifies this`hand, this`pte, this`ring
      ensures Tied() && 0 <= hand && 1 <= moves <= size + 1 && (empty > 0 ==> moves == 1)
      ensures |x| == size && Passes(x, ring) && (Live(x[0]) <==> empty == 0)
      ensures Sweeping(old(pte), pte, old(ring), empty, x, moves - 1) && (Live(x[0]) ==> !Referenced(pte, x[0]))
      ensures moves == 1 ==> x == old(ring) && pte == old(pte)
    {
      ghost var r := ring;
      moves := 0;
      SweepStart(pte, r, empty);
      while true
        invariant Tied() && moves <= size
        invariant Sweeping(old(pte), pte, r, empty, ring, moves)
        invariant moves == 0 ==> ring == r && pte == old(pte)
        decreases size - moves
      {
        x := ring;
        SweepStep(old(pte), pte, r, empty, x, moves);
        PassOn(x);
        Move();
        moves := moves + 1;
        var slot := Under();
        if slot.vpn == EMPTY || !At(pte, slot.pte).a {
          break;
        }
        ghost var t := Set(pte, x[0].pte, At(pte, x[0].pte).(a := false));
        assert Sweeping(old(pte), t, r, empty, ring, moves);
        pte := Set(pte, slot.pte, At(pte, slot.pte).(a := false));
      }
    }

    // ----- clk_remove

    /** The first loop of clk_remove: the array index of the page, or -1; false is an index outside the array. */
    method Find(vpn: int) returns (ok: bool, idx: int, ghost m: nat)
      requires Valid() && vpn != EMPTY
      ensures ok <==> 0 <= hand || size == 1
      ensures !ok || idx == -1 ==> !HasPage(Pages(), vpn)
      ensures ok && idx != -1 ==> 0 <= hand && m < size && ring[m].vpn == vpn && idx == Slot(size, hand, m)
    {
      m := 0;
      var i := 0;
      if hand == -1 {
        NothingIn(pte, ring, empty, vpn);
      }
      while i < size
        invariant 0 <= i <= size && (i > 0 ==> 0 <= hand || size == 1)
        invariant i > 0 ==> ring[size - 1].vpn != vpn
        invariant forall k | 0 <= k < i - 1 :: ring[k].vpn != vpn
      {
        idx := SearchIndex(hand, i, size);
        SearchStaysInside(hand, size);
        if idx < 0 || idx >= size {
          return false, -1, 0;
        }
        SearchIndexed(size, hand, i);
        m := if i == 0 then size - 1 else i - 1;
        var n := Read(idx, m);
        if n.vpn == vpn {
          return true, idx, m;
        }
        i := i + 1;
      }
      NotFound(ring, empty, vpn);
      return true, -1, 0;
    }

    /** The second loop of clk_remove: the pages after slot `m` move back by one slot. */
    method Shift(from: int, ghost m: nat)
      requires Tied() && 0 <= hand && m < size && from == Slot(size, hand, m)
      modifies queue, this`ring
      ensures Tied() && IsShifted(old(ring), m, size - 1, ring)
    {
      ghost var r, k := ring, m;
      var idx := from;
      SlotNext(size, hand, k);
      while idx != hand
        invariant Tied() && m <= k < size && idx == Slot(size, hand, k) && (idx == hand <==> k == size - 1)
        invariant -1 <= idx < size && IsShifted(r, m, k, ring)
        decreases size - k
      {
        ShiftOn(r, m, k, ring);
        SlotNext(size, hand, k);
        NextHandIs(size, idx);
        var next := (idx + 1) % size;
        var n := Read(next, k + 1);
        Write(idx, n, k);
        idx, k := next, k + 1;
        SlotNext(size, hand, k);
      }
    }

    /**
     clk_remove: the page leaves the queue and the others keep their order; page table entries stay.
     False stands for reading outside the array, before the first insert.
     */
    method Remove(vpn: int) returns (ok: bool)
      requires Valid() && vpn != EMPTY
      modifies this`hand, this`empty, this`ring, queue
      ensures Valid() && (ok <==> 0 <= old(hand) || size == 1)
      ensures !HasPage(old(Pages()), vpn) ==> Pages() == old(Pages()) && hand == old(hand)
      ensures forall k: nat | Numbered(old(Pages()), k, vpn) :: Pages() == Without(old(Pages()), k)
    {
      var idx: int;
      ghost var m: nat;
      ok, idx, m := Find(vpn);
      if !ok || idx == -1 {
        return;
      }
      ghost var t, r, e := pte, ring, empty;
      TakeOut(idx, m);
      empty := empty + 1;
      RemovedOk(t, r, e, m, pte, ring, empty);
    }

    /** clk_remove after its search. */
    method TakeOut(idx: int, ghost m: nat)
      requires Tied() && 0 <= hand && m < size && idx == Slot(size, hand, m)
      modifies this`hand, this`ring, queue
      ensures Tied() && 0 <= hand && IsRemoved(old(ring), m, ring)
    {
      Shift(idx, m);
      var tail := Under();
      ShiftDone(old(ring), m, ring, Node(EMPTY, tail.pte));
      Place(Node(EMPTY, tail.pte));
      Back();
    }

    // ----- references

    /**
     do_ref_page: afterwards the page is present and referenced.  A page fault inserts it; the
     page that it replaces, if any, is no longer present.
     */
    method DoRefPage(vpn: int, p: nat)
      requires Valid() && Managed(pte, Pages(), gone) && vpn != EMPTY && p < |pte|
      requires forall k | 0 <= k < |Pages()| :: Pages()[k].vpn == vpn <==> Pages()[k].pte == p
      modifies this`hand, this`pte, this`empty, this`ring, queue
      ensures Valid() && Managed(pte, Pages(), gone) && p < |pte| && pte[p].p && pte[p].a
      ensures old(pte)[p].p ==>
              Pages() == old(Pages()) && pte == old(pte)[p := old(pte)[p].(a := true)] && hand == old(hand)
      ensures !old(pte)[p].p && old(empty) > 0 ==> Pages() == old(Pages()) + [Node(vpn, p)]
      ensures !old(pte)[p].p && old(empty) == 0 ==> Pages() == Replaced(old(pte), old(Pages()), Node(vpn, p))
    {
      ghost var q, t := Pages(), pte;
      if pte[p].p {
        ManagedReferenced(pte, q, gone, p);
        pte := Set(pte, p, At(pte, p).(a := true));
        SoundBits(t, pte, ring, empty);
        return;
      }
      FaultIsFresh(pte, q, gone, Node(vpn, p));
      RingQueue(pte, ring, empty);
      if empty > 0 {
        ManagedInserted(pte, q, gone, Node(vpn, p));
      } else {
        ManagedReplaced(pte, q, gone, Node(vpn, p));
      }
      var _ := Insert(vpn, p);
      PresentAfter(pte, Pages(), gone, p);
      ManagedReferenced(pte, Pages(), gone, p);
      SoundBits(pte, Set(pte, p, At(pte, p).(a := true)), ring, empty);
      pte := Set(pte, p, At(pte, p).(a := true));
    }

    /** do_remove_page: the page leaves the ring but stays present; false as for `Remove`. */
    method DoRemovePage(vpn: int) returns (ok: bool)
      requires Valid() && Managed(pte, Pages(), gone) && vpn != EMPTY
      modifies this`hand, this`empty, this`gone, this`ring, queue
      ensures Valid() && Managed(pte, Pages(), gone) && !HasPage(Pages(), vpn)
      ensures ok <==> 0 <= old(hand) || size == 1
      ensures !HasPage(old(Pages()), vpn) ==> Pages() == old(Pages()) && gone == old(gone)
      ensures forall k: nat | Numbered(old(Pages()), k, vpn) ::
                Pages() == Without(old(Pages()), k) && gone == old(gone) + {old(Pages())[k].pte}
    {
      ghost var q := Pages();
      RingQueue(pte, ring, empty);
      ok := Remove(vpn);
      if k: nat :| Numbered(q, k, vpn) {
        ManagedRemoved(pte, q, gone, k);
        NoLonger(pte, q, k);
        gone := gone + {q[k].pte};
      }
    }
  }

  predicate Numbered(q: seq<Node>, k: nat, vpn: int) {
    k < |q| && q[k].vpn == vpn
  }

  ghost predicate HasPage(q: seq<Node>, vpn: int) {
    exists k: nat :: Numbered(q, k, vpn)
  }

  /** The hand moves on by one slot; kept folded. */
  ghost predicate Passes(x: seq<Node>, r: seq<Node>) {
    forall k | Look(k) :: x != [] && r == Turned(x) && Last(r) == x[0]
  }

  lemma PassOn(x: seq<Node>)
    requires x != [] && Last(Turned(x)) == x[0]
    ensures Passes(x, Turned(x))
  {
  }

  lemma ExchangeUnder(x: seq<Node>, r: seq<Node>, n: Node)
    requires Passes(x, r)
    ensures x != [] && Last(r) == x[0] && WithLast(r, n) == x[1..] + [n]
  {
    assert Look(0);
    TurnedWithLast(x, n);
  }

  lemma TurnedWithLast(x: seq<Node>, n: Node)
    requires x != []
    ensures WithLast(Turned(x), n) == x[1..] + [n]
  {
  }

  /** A ring of empty slots has no page. */
  lemma NothingIn(t: seq<Pte>, r: seq<Node>, e: nat, vpn: int)
    requires Sound(t, r, e) && e == |r| && vpn != EMPTY
    ensures !HasPage(Queue(r, e), vpn) && forall k | 0 <= k < |r| :: r[k].vpn != vpn
  {
    assert Look(0);
  }

  lemma NotFound(r: seq<Node>, e: nat, vpn: int)
    requires forall k | 0 <= k < |r| :: r[k].vpn != vpn
    ensures !HasPage(Queue(r, e), vpn)
  {
  }

  /** The page that clk_remove finds is in the queue, and nowhere else in it. */
  lemma FoundPage(t: seq<Pte>, r: seq<Node>, e: nat, m: nat)
    requires Sound(t, r, e) && m < |r| && Live(r[m])
    ensures e <= m && HasPage(Queue(r, e), r[m].vpn)
    ensures forall k: nat | Numbered(Queue(r, e), k, r[m].vpn) :: k == m - e
  {
    assert Look(0);
    assert e <= m;
    assert Numbered(Queue(r, e), m - e, r[m].vpn);
  }

  lemma SoundBits(t: seq<Pte>, u: seq<Pte>, r: seq<Node>, e: nat)
    requires Sound(t, r, e) && |u| == |t|
    ensures Sound(u, r, e)
  {
    assert Look(0);
    SameLength(t, u, r[e..]);
  }

  lemma RingQueue(t: seq<Pte>, r: seq<Node>, e: nat)
    requires Sound(t, r, e)
    ensures e <= |r| && QueueOk(t, Queue(r, e))
  {
    assert Look(0);
  }

  /** A page that is not present is not in the ring, as clk_insert asks. */
  lemma FaultIsFresh(t: seq<Pte>, q: seq<Node>, gone: set<nat>, n: Node)
    requires Managed(t, q, gone) && n.pte < |t| && !t[n.pte].p
    requires forall k | 0 <= k < |q| :: q[k].vpn == n.vpn <==> q[k].pte == n.pte
    ensures Fresh(q, n)
  {
    assert BitsOk(t, q, gone, n.pte);
  }

  lemma PresentAfter(t: seq<Pte>, q: seq<Node>, gone: set<nat>, p: nat)
    requires Managed(t, q, gone) && p < |t| && q != [] && q[|q| - 1].pte == p
    ensures t[p].p
  {
    assert BitsOk(t, q, gone, p);
    assert Has(q, p);
  }

  lemma NoLonger(t: seq<Pte>, q: seq<Node>, k: nat)
    requires QueueOk(t, q) && k < |q|
    ensures !HasPage(Without(q, k), q[k].vpn)
    ensures forall i | 0 <= i < |q| && q[i].vpn == q[k].vpn :: i == k
  {
    var w := Without(q, k);
    assert forall i | 0 <= i < |w| :: w[i] == q[if i < k then i else i + 1];
  }
}
