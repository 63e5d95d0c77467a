/**
 Second-chance FIFO replacement, the policy that the CLOCK ring of `w11/clock-example.c` implements.
 A queue holds the oldest page first; the bits of page table entries are kept beside it.
 */
module SecondChance {

  /** PTE_P, PTE_A and PTE_E of a page table entry. */
  datatype Pte = Pte(p: bool, a: bool, e: bool)

  /** A page in the ring, and the index of its page table entry. */
  datatype Node = Node(vpn: int, pte: nat)

  const EMPTY := -1

  // ----- the bits

  function At(t: seq<Pte>, i: nat): Pte {
    if i < |t| then t[i] else Pte(false, false, false)
  }

  function Set(t: seq<Pte>, i: nat, x: Pte): seq<Pte> {
    if i < |t| then t[i := x] else t
  }

  /** mencrypt. */
  function Encrypt(x: Pte): Pte {
    if x.e then x else x.(e := true, p := false)
  }

  /** mdecrypt. */
  function Decrypt(x: Pte): Pte {
    if !x.e then x else x.(e := false, p := true)
  }

  predicate Referenced(t: seq<Pte>, n: Node) {
    At(t, n.pte).a
  }

  /** The reference bits of the first `k` pages are cleared. */
  function Cleared(t: seq<Pte>, q: seq<Node>, k: nat): (u: seq<Pte>)
    requires k <= |q|
    ensures |u| == |t|
  {
    if k == 0 then t else
      var u := Cleared(t, q, k - 1);
      Set(u, q[k - 1].pte, At(u, q[k - 1].pte).(a := false))
  }

  /** One of the first `k` pages has entry `i`. */
  ghost predicate Among(q: seq<Node>, k: nat, i: nat) {
    exists j :: 0 <= j < k && j < |q| && q[j].pte == i
  }

  lemma {:induction false} ClearedAt(t: seq<Pte>, q: seq<Node>, k: nat, i: nat)
    requires k <= |q|
    ensures At(Cleared(t, q, k), i) == if Among(q, k, i) then At(t, i).(a := false) else At(t, i)
  {
    if k > 0 {
      ClearedAt(t, q, k - 1, i);
      assert Among(q, k, i) <==> Among(q, k - 1, i) || q[k - 1].pte == i;
    }
  }

  // ----- the policy

  /** The number of referenced pages before the first one that is not. */
  function Spared(t: seq<Pte>, q: seq<Node>): (k: nat)
    ensures k <= |q| && (forall i | 0 <= i < k :: Referenced(t, q[i])) && (k < |q| ==> !Referenced(t, q[k]))
  {
    if q == [] || !Referenced(t, q[0]) then 0 else 1 + Spared(t, q[1..])
  }

  /** The page that a full queue gives up: the oldest unreferenced one, or the oldest if all are referenced. */
  function Victim(t: seq<Pte>, q: seq<Node>): (v: nat)
    requires q != []
    ensures v < |q|
  {
    if Spared(t, q) < |q| then Spared(t, q) else 0
  }

  /** The pages before the victim get their second chance and move to the end in order; then comes the new page. */
  function Replaced(t: seq<Pte>, q: seq<Node>, n: Node): seq<Node>
    requires q != []
  {
    q[Victim(t, q) + 1..] + q[..Victim(t, q)] + [n]
  }

  /** The page table after a replacement: bits cleared, the victim encrypted, the new page decrypted. */
  function ReplacedBits(t: seq<Pte>, q: seq<Node>, n: Node): seq<Pte>
    requires q != []
  {
    var u := Cleared(t, q, Spared(t, q));
    var v := q[Victim(t, q)].pte;
    var w := Set(u, v, Encrypt(At(u, v)));
    Set(w, n.pte, Decrypt(At(w, n.pte)))
  }

  function InsertedBits(t: seq<Pte>, n: Node): seq<Pte> {
    Set(t, n.pte, Decrypt(At(t, n.pte)))
  }

  // ----- queues

  predicate Live(n: Node) {
    n.vpn != EMPTY
  }

  /** Live pages with different numbers and different page table entries. */
  ghost predicate QueueOk(t: seq<Pte>, q: seq<Node>) {
    && (forall i | 0 <= i < |q| :: Live(q[i]) && q[i].pte < |t|)
    && forall i, j | 0 <= i < j < |q| :: q[i].vpn != q[j].vpn && q[i].pte != q[j].pte
  }

  ghost predicate Fresh(q: seq<Node>, n: Node) {
    forall i | 0 <= i < |q| :: q[i].vpn != n.vpn && q[i].pte != n.pte
  }

  /** One step of the policy on a full queue: a referenced head moves to the tail with its bit cleared. */
  function PassHead(t: seq<Pte>, q: seq<Node>): (seq<Pte>, seq<Node>)
    requires q != []
  {
    (Set(t, q[0].pte, At(t, q[0].pte).(a := false)), q[1..] + [q[0]])
  }

  /** After a full turn the oldest page is the head again, and its bit is cleared. */
  lemma SparedAfterPass(t: seq<Pte>, q: seq<Node>)
    requires q != [] && QueueOk(t, q) && Referenced(t, q[0])
    ensures var (t', q') := PassHead(t, q); Spared(t', q') == Spared(t, q) - 1
  {
    var (t', q') := PassHead(t, q);
    var k := Spared(t, q);
    SparedIs(t', q', k - 1);
  }

  /**
   Passing a referenced head changes neither the queue nor the page table that the replacement ends
   with, on every queue; with `TakeHead` this ties the replacement to the one-step policy.
   */
  lemma SpareHead(t: seq<Pte>, q: seq<Node>, n: Node)
    requires q != [] && QueueOk(t, q) && Fresh(q, n) && Referenced(t, q[0])
    ensures var (t', q') := PassHead(t, q);
            && Spared(t', q') == Spared(t, q) - 1
            && Replaced(t', q', n) == Replaced(t, q, n) && ReplacedBits(t', q', n) == ReplacedBits(t, q, n)
  {
    var (t', q') := PassHead(t, q);
    SparedAfterPass(t, q);
    RotatedPast(q, q', Victim(t, q), Victim(t', q'), n);
    var u, u' := Cleared(t, q, Spared(t, q)), Cleared(t', q', Spared(t', q'));
    forall i: nat ensures At(u', i) == At(u, i) {
      ClearedAfterPass(t, q, i);
    }
    SameBits(u', u);
  }

  /** Turning the queue by one page turns it past the same page. */
  lemma RotatedPast(q: seq<Node>, q': seq<Node>, v: nat, v': nat, n: Node)
    requires q != [] && q' == q[1..] + [q[0]] && v < |q| && v' == if v == 0 then |q| - 1 else v - 1
    ensures q'[v'] == q[v] && q'[v' + 1..] + q'[..v'] + [n] == q[v + 1..] + q[..v] + [n]
  {
    if v == 0 {
      assert q'[v' + 1..] == [] && q'[..v'] == q[1..] && q[..v] == [];
    } else {
      assert q'[v' + 1..] == q[v + 1..] + [q[0]] && q'[..v'] == q[1..v] && q[..v] == [q[0]] + q[1..v];
    }
  }

  lemma ClearedAfterPass(t: seq<Pte>, q: seq<Node>, i: nat)
    requires q != [] && QueueOk(t, q) && Referenced(t, q[0])
    ensures var (t', q') := PassHead(t, q);
            At(Cleared(t', q', Spared(t', q')), i) == At(Cleared(t, q, Spared(t, q)), i)
  {
    SparedAfterPass(t, q);
    PassClears(t, q, Spared(t, q), i);
  }

  lemma PassClears(t: seq<Pte>, q: seq<Node>, k: nat, i: nat)
    requires q != [] && 0 < k <= |q|
    ensures var (t', q') := PassHead(t, q); At(Cleared(t', q', k - 1), i) == At(Cleared(t, q, k), i)
  {
    var (t', q') := PassHead(t, q);
    ClearedAt(t, q, k, i);
    ClearedAt(t', q', k - 1, i);
    AmongAfterPass(q, q', k, i);
  }

  lemma AmongAfterPass(q: seq<Node>, q': seq<Node>, k: nat, i: nat)
    requires q != [] && 0 < k <= |q| && q' == q[1..] + [q[0]]
    ensures Among(q, k, i) <==> Among(q', k - 1, i) || i == q[0].pte
  {
    if j :| 0 < j < k && q[j].pte == i {
      assert q'[j - 1].pte == i;
    }
    if j :| 0 <= j < k - 1 && q'[j].pte == i {
      assert q[j + 1].pte == i;
    }
  }

  lemma SameBits(t: seq<Pte>, u: seq<Pte>)
    requires |t| == |u| && forall i: nat :: At(t, i) == At(u, i)
    ensures t == u
  {
    forall i | 0 <= i < |t| ensures t[i] == u[i] {
      assert At(t, i) == At(u, i);
    }
  }

  /** An unreferenced head is the victim: the new page takes its place at the tail. */
  lemma TakeHead(t: seq<Pte>, q: seq<Node>, n: Node)
    requires q != [] && !Referenced(t, q[0])
    ensures Spared(t, q) == 0 && Replaced(t, q, n) == q[1..] + [n]
    ensures ReplacedBits(t, q, n) == InsertedBits(Set(t, q[0].pte, Encrypt(At(t, q[0].pte))), n)
  {
    assert q[1..] + q[..0] + [n] == q[1..] + [n];
  }

  lemma {:induction false} SparedIs(t: seq<Pte>, q: seq<Node>, k: nat)
    requires k < |q| && (forall i | 0 <= i < k :: Referenced(t, q[i])) && !Referenced(t, q[k])
    ensures Spared(t, q) == k
  {
    if k > 0 {
      assert Referenced(t, q[0]);
      SparedIs(t, q[1..], k - 1);
    }
  }

  // ----- which pages are present

  ghost predicate Has(q: seq<Node>, i: nat) {
    exists k :: 0 <= k < |q| && q[k].pte == i
  }

  /** A page is present exactly if it is not encrypted, and exactly if it is in the queue or was taken out by force. */
  ghost predicate BitsOk(t: seq<Pte>, q: seq<Node>, gone: set<nat>, i: nat) {
    i < |t| ==> (t[i].p <==> !t[i].e) && (t[i].p <==> Has(q, i) || i in gone)
  }

  ghost predicate Managed(t: seq<Pte>, q: seq<Node>, gone: set<nat>) {
    (forall i: nat :: BitsOk(t, q, gone, i)) && forall i | i in gone :: !Has(q, i)
  }

  /** Before the first reference every page is encrypted. */
  lemma ManagedAtStart(t: seq<Pte>)
    requires forall i | 0 <= i < |t| :: t[i].e && !t[i].p
    ensures Managed(t, [], {})
  {
    forall i: nat ensures BitsOk(t, [], {}, i) {
    }
  }

  lemma HasAdd(q: seq<Node>, n: Node, i: nat)
    ensures Has(q + [n], i) <==> Has(q, i) || i == n.pte
  {
    var q' := q + [n];
    if Has(q, i) {
      var k :| 0 <= k < |q| && q[k].pte == i;
      assert q'[k].pte == i;
    }
    assert q'[|q|].pte == n.pte;
  }

  /** The pages that stay when `v` leaves are all but `v`. */
  lemma HasWithout(t: seq<Pte>, q: seq<Node>, v: nat, i: nat)
    requires QueueOk(t, q) && v < |q|
    ensures Has(q[..v] + q[v + 1..], i) <==> Has(q, i) && i != q[v].pte
  {
    var rest := q[..v] + q[v + 1..];
    if Has(q, i) && i != q[v].pte {
      var k :| 0 <= k < |q| && q[k].pte == i;
      assert rest[if k < v then k else k - 1] == q[k];
    }
    if Has(rest, i) {
      var l :| 0 <= l < |rest| && rest[l].pte == i;
      assert rest[l] == q[if l < v then l else l + 1];
    }
  }

  lemma HasRotated(t: seq<Pte>, q: seq<Node>, v: nat, i: nat)
    requires QueueOk(t, q) && v < |q|
    ensures Has(q[v + 1..] + q[..v], i) <==> Has(q, i) && i != q[v].pte
  {
    var rest, d := q[v + 1..] + q[..v], |q| - v - 1;
    if Has(q, i) && i != q[v].pte {
      var k :| 0 <= k < |q| && q[k].pte == i;
      assert rest[if k > v then k - v - 1 else d + k] == q[k];
    }
    if Has(rest, i) {
      var l :| 0 <= l < |rest| && rest[l].pte == i;
      assert rest[l] == q[if l < d then l + v + 1 else l - d];
    }
  }

  lemma ManagedInserted(t: seq<Pte>, q: seq<Node>, gone: set<nat>, n: Node)
    requires Managed(t, q, gone) && n.pte < |t| && !t[n.pte].p
    ensures Managed(InsertedBits(t, n), q + [n], gone)
  {
    var t', q' := InsertedBits(t, n), q + [n];
    assert BitsOk(t, q, gone, n.pte);
    forall i: nat ensures BitsOk(t', q', gone, i) && (i in gone ==> !Has(q', i)) {
      assert BitsOk(t, q, gone, i);
      HasAdd(q, n, i);
    }
  }

  lemma ManagedReplaced(t: seq<Pte>, q: seq<Node>, gone: set<nat>, n: Node)
    requires Managed(t, q, gone) && QueueOk(t, q) && q != [] && Fresh(q, n) && n.pte < |t| && !t[n.pte].p
    ensures Managed(ReplacedBits(t, q, n), Replaced(t, q, n), gone)
  {
    var t', q' := ReplacedBits(t, q, n), Replaced(t, q, n);
    forall i: nat ensures BitsOk(t', q', gone, i) && (i in gone ==> !Has(q', i)) {
      ReplacedAt(t, q, gone, n, i);
    }
  }

  lemma ReplacedAt(t: seq<Pte>, q: seq<Node>, gone: set<nat>, n: Node, i: nat)
    requires Managed(t, q, gone) && QueueOk(t, q) && q != [] && Fresh(q, n) && n.pte < |t| && !t[n.pte].p
    ensures BitsOk(ReplacedBits(t, q, n), Replaced(t, q, n), gone, i) && (i in gone ==> !Has(Replaced(t, q, n), i))
  {
    var v := Victim(t, q);
    assert BitsOk(t, q, gone, i) && BitsOk(t, q, gone, n.pte) && BitsOk(t, q, gone, q[v].pte);
    HasRotated(t, q, v, i);
    HasAdd(q[v + 1..] + q[..v], n, i);
    ClearedAt(t, q, Spared(t, q), i);
    ClearedAt(t, q, Spared(t, q), n.pte);
    ClearedAt(t, q, Spared(t, q), q[v].pte);
  }

  /** A replacement clears the reference bits of the pages it spares, and no other. */
  lemma ReplacedReference(t: seq<Pte>, q: seq<Node>, n: Node, i: nat)
    requires q != []
    ensures At(ReplacedBits(t, q, n), i).a <==>
            At(t, i).a && forall j | 0 <= j < Spared(t, q) :: q[j].pte != i
  {
    ClearedAt(t, q, Spared(t, q), i);
  }

  lemma ManagedReferenced(t: seq<Pte>, q: seq<Node>, gone: set<nat>, p: nat)
    requires Managed(t, q, gone) && p < |t|
    ensures Managed(Set(t, p, At(t, p).(a := true)), q, gone)
  {
    var t' := Set(t, p, At(t, p).(a := true));
    forall i: nat ensures BitsOk(t', q, gone, i) {
      assert BitsOk(t, q, gone, i);
    }
  }

  /** clk_remove leaves the page present. */
  lemma ManagedRemoved(t: seq<Pte>, q: seq<Node>, gone: set<nat>, k: nat)
    requires Managed(t, q, gone) && QueueOk(t, q) && k < |q|
    ensures Managed(t, q[..k] + q[k + 1..], gone + {q[k].pte})
  {
    var q', gone' := q[..k] + q[k + 1..], gone + {q[k].pte};
    forall i: nat ensures BitsOk(t, q', gone', i) && (i in gone' ==> !Has(q', i)) {
      assert BitsOk(t, q, gone, i);
      HasWithout(t, q, k, i);
    }
  }
}
