/**
 Who has a backend connection: the pool's idle queue, one client, or the target that is to close it.
 The pointers are the code's own: client.backend (pins), client.activeBackend (jobs), backend.client (owner).
 The set lost is the model's: connections of the pool that nothing leads to any more.
 */
module Custody {
  import opened Sequences
  import opened Protocol

  type Cid = nat
  type Bid = nat

  datatype Custody = Custody(all: set<Bid>, queue: seq<Bid>, closing: seq<Bid>, pins: map<Cid, Bid>, jobs: map<Cid, Bid>,
                             owner: map<Bid, Cid>, lost: set<Bid>, capacity: nat)

  // --- The operations ---

  /** A new connection, deposited in the queue; closed at once when the queue is full. */
  function Open(k: Custody, b: Bid): Custody {
    if |k.queue| < k.capacity then k.(all := k.all + {b}, queue := k.queue + [b]) else k
  }

  function Borrow(k: Custody, c: Cid): Custody
    requires k.queue != []
  {
    k.(queue := k.queue[1..], jobs := k.jobs[c := k.queue[0]])
  }

  /** The client goes on with the backend it is pinned to. */
  function Resume(k: Custody, c: Cid): Custody
    requires c in k.pins
  {
    k.(jobs := k.jobs[c := k.pins[c]])
  }

  function Pin(k: Custody, c: Cid, b: Bid): Custody { k.(pins := k.pins[c := b], owner := k.owner[b := c]) }

  function Unpin(k: Custody, c: Cid, b: Bid): Custody { k.(pins := k.pins - {c}, owner := k.owner - {b}) }

  function Deposit(k: Custody, b: Bid): Custody {
    if |k.queue| < k.capacity then k.(queue := k.queue + [b]) else k.(closing := k.closing + [b])
  }

  /** Backend.Return: forgets the backend's client, but not the client's backend. */
  function Return(k: Custody, c: Cid, b: Bid): Custody {
    Deposit(k.(owner := k.owner - {b}, jobs := k.jobs - {c}), b)
  }

  /** Backend.Release: the client that the backend points to, if any, loses its pin; the target closes the
      connection. */
  function Release(k: Custody, c: Cid, b: Bid): Custody {
    k.(pins := if b in k.owner then k.pins - {k.owner[b]} else k.pins, owner := k.owner - {b}, jobs := k.jobs - {c},
       closing := k.closing + [b])
  }

  /** The status byte of ReadyForQuery, or nothing when the reply could not be read. */
  datatype Status = Known(tx: Tx) | Unread

  function KeepPinned(k: Custody, c: Cid, b: Bid): Custody {
    var p := if c in k.pins then k else Pin(k, c, b);
    p.(jobs := k.jobs - {c})
  }

  /** reconcileConn: keep, unpin or return the backend, by status and by the client's named statements. */
  function Reconcile(k: Custody, c: Cid, b: Bid, status: Status, wasPinned: bool, hasNamed: bool): Custody {
    if status.Known? && (!status.tx.Idle? || hasNamed) then KeepPinned(k, c, b)
    else if wasPinned && !hasNamed then Return(Unpin(k, c, b), c, b)
    else Return(k, c, b)
  }

  /** The client's transaction flag after reconcileConn. */
  predicate Flag(status: Status) { status.Known? && !status.tx.Idle? }

  /** handleClose: the target takes a connection off the pool. */
  function Close(k: Custody): Custody
    requires k.closing != []
  {
    k.(all := k.all - {k.closing[0]}, closing := k.closing[1..])
  }

  /** closeOneIdle. */
  function Shrink(k: Custody): Custody
    requires k.queue != []
  {
    k.(all := k.all - {k.queue[0]}, queue := k.queue[1..])
  }

  /** Does closing the client's socket leave its pinned backend behind? Not when the client is working on it: then
      the failing job releases it. */
  predicate LeavesPin(k: Custody, c: Cid) { c in k.pins && !(c in k.jobs && k.jobs[c] == k.pins[c]) }

  /** Client.Close from failListen: the pointer to the pinned backend is cleared without a release, so the cleanup finds
      nothing to release; a job in flight fails and releases its own backend. */
  function Drop(k: Custody, c: Cid): Custody {
    var cut := k.(pins := k.pins - {c}, lost := k.lost + if LeavesPin(k, c) then {k.pins[c]} else {});
    if c in k.jobs then Release(cut, c, k.jobs[c]) else cut
  }

  function Without(q: seq<Bid>, stale: set<Bid>): seq<Bid> {
    if q == [] then [] else Without(q[..|q| - 1], stale) + if q[|q| - 1] in stale then [] else [q[|q| - 1]]
  }

  /** The queue loop of healthCheck: over-age idle connections go, the rest keep their order. */
  function Evict(k: Custody, stale: set<Bid>): Custody {
    k.(all := k.all - (stale * (set b | b in k.queue)), queue := Without(k.queue, stale))
  }

  // --- The invariant ---

  predicate Idling(k: Custody, b: Bid) { b in k.queue }

  predicate Closing(k: Custody, b: Bid) { b in k.closing }

  predicate Holds(k: Custody, c: Cid, b: Bid) { (c in k.pins && k.pins[c] == b) || (c in k.jobs && k.jobs[c] == b) }

  predicate Lost(k: Custody, b: Bid) { b in k.lost }

  /** Every connection of the pool is in exactly one place, once, or lost. */
  ghost predicate Exclusive(k: Custody) {
    && Distinct(k.queue) && Distinct(k.closing)
    && (forall b :: Idling(k, b) ==> b in k.all && !Closing(k, b) && !Lost(k, b))
    && (forall b :: Closing(k, b) ==> b in k.all && !Lost(k, b))
    && (forall b :: Lost(k, b) ==> b in k.all)
    && (forall c, b :: Holds(k, c, b) ==> b in k.all && !Idling(k, b) && !Closing(k, b) && !Lost(k, b))
    && (forall c, d, b :: Holds(k, c, b) && Holds(k, d, b) ==> c == d)
    && (forall b :: b in k.all ==> Idling(k, b) || Closing(k, b) || Lost(k, b) || exists c: Cid :: Holds(k, c, b))
    && (forall b, c :: !Lost(k, b) ==> ((b in k.owner && k.owner[b] == c) <==> (c in k.pins && k.pins[c] == b)))
  }

  /** The clients that hold a backend. */
  function Holders(k: Custody, b: Bid): set<Cid> { set c | c in k.pins.Keys + k.jobs.Keys && Holds(k, c, b) }

  lemma {:induction false} Occurrences(q: seq<Bid>, b: Bid)
    ensures Distinct(q) ==> multiset(q)[b] == if b in q then 1 else 0
  {
    if q != [] {
      var n := |q| - 1;
      assert q == q[..n] + [q[n]];
      Occurrences(q[..n], b);
      assert b in q <==> b in q[..n] || b == q[n];
    }
  }

  /** The invariant in numbers: idle entries, closing entries and holders of a connection add up to one; to none when
      it is lost. */
  lemma ExactlyOnePlace(k: Custody, b: Bid)
    requires Exclusive(k) && b in k.all
    ensures multiset(k.queue)[b] + multiset(k.closing)[b] + |Holders(k, b)| == if b in k.lost then 0 else 1
  {
    Occurrences(k.queue, b);
    Occurrences(k.closing, b);
    if Idling(k, b) || Closing(k, b) || Lost(k, b) {
      assert !Lost(k, b) || !(Idling(k, b) || Closing(k, b));
      assert Holders(k, b) == {};
    } else {
      var c: Cid :| Holds(k, c, b);
      assert Holders(k, b) == {c};
    }
  }

  // --- Where every operation puts its connection ---

  /** The operation moves nothing but connection b. */
  ghost predicate MovesOnly(k: Custody, n: Custody, b: Bid) {
    && (forall x :: x != b ==> (Idling(n, x) <==> Idling(k, x)) && (Closing(n, x) <==> Closing(k, x)))
    && (forall x :: x != b ==> (Lost(n, x) <==> Lost(k, x)))
    && (forall d, x :: x != b ==> (Holds(n, d, x) <==> Holds(k, d, x)))
  }

  /** A new connection is idle if the queue has room, and otherwise none of the pool's. */
  lemma OpenMoves(k: Custody, b: Bid)
    requires Exclusive(k) && b !in k.all
    ensures var n := Open(k, b);
      MovesOnly(k, n, b) && (b in n.all <==> |k.queue| < k.capacity) && (Idling(n, b) <==> |k.queue| < k.capacity)
  {
    var n := Open(k, b);
    assert forall x :: Idling(k, x) ==> x in k.all;
    assert forall x :: x != b ==> (Idling(n, x) <==> Idling(k, x));
  }

  /** The connection that has been idle longest goes to the client. */
  lemma BorrowMoves(k: Custody, c: Cid)
    requires Exclusive(k) && k.queue != [] && c !in k.jobs
    ensures var b, n := k.queue[0], Borrow(k, c);
      MovesOnly(k, n, b) && !Idling(n, b) && Holds(n, c, b) && forall d :: Holds(n, d, b) ==> d == c
  {
    var b, n := k.queue[0], Borrow(k, c);
    assert Idling(k, b);
    assert forall x :: Idling(k, x) <==> x == b || Idling(n, x);
    assert forall d, x :: Holds(n, d, x) <==> Holds(k, d, x) || (d == c && x == b);
  }

  /** A connection that is given back is idle if the queue has room, and waits to be closed otherwise. */
  lemma ReturnMoves(k: Custody, c: Cid, b: Bid)
    requires Exclusive(k) && c in k.jobs && k.jobs[c] == b && !(c in k.pins && k.pins[c] == b)
    ensures var n := Return(k, c, b);
      && MovesOnly(k, n, b) && (forall d :: !Holds(n, d, b))
      && (if |k.queue| < k.capacity then Idling(n, b) && !Closing(n, b) else Closing(n, b) && !Idling(n, b))
  {
    var n := Return(k, c, b);
    assert Holds(k, c, b);
    assert forall x :: Idling(n, x) <==> Idling(k, x) || (x == b && |k.queue| < k.capacity);
    assert forall x :: Closing(n, x) <==> Closing(k, x) || (x == b && |k.queue| >= k.capacity);
    assert forall d, x :: Holds(n, d, x) <==> Holds(k, d, x) && !(d == c && x == b);
  }

  /** A connection that is released waits to be closed, and nobody has it. */
  lemma ReleaseMoves(k: Custody, c: Cid, b: Bid)
    requires Exclusive(k) && Holds(k, c, b) && (c in k.jobs ==> k.jobs[c] == b)
    ensures var n := Release(k, c, b);
      MovesOnly(k, n, b) && Closing(n, b) && !Idling(n, b) && forall d :: !Holds(n, d, b)
  {
    var n := Release(k, c, b);
    assert forall x :: Idling(n, x) <==> Idling(k, x);
    assert forall x :: Closing(n, x) <==> Closing(k, x) || x == b;
    assert forall d, x :: Holds(n, d, x) <==> Holds(k, d, x) && !(d == c && x == b);
  }

  /** Of the idle connections exactly those over age leave the pool. */
  lemma EvictMoves(k: Custody, stale: set<Bid>)
    requires Exclusive(k)
    ensures var n := Evict(k, stale);
      && (forall x :: Idling(n, x) <==> Idling(k, x) && x !in stale)
      && (forall x :: x in n.all <==> x in k.all && !(Idling(k, x) && x in stale))
      && n == k.(all := n.all, queue := n.queue)
  {
    WithoutKeeps(k.queue, stale);
  }

  // --- Every operation keeps it ---

  lemma OpenKeeps(k: Custody, b: Bid)
    requires Exclusive(k) && b !in k.all
    ensures Exclusive(Open(k, b))
  {
    var n := Open(k, b);
    assert forall x :: Idling(n, x) <==> Idling(k, x) || (x == b && |k.queue| < k.capacity);
    assert forall x :: Closing(n, x) <==> Closing(k, x);
    assert !Closing(k, b);
    forall x | x in n.all ensures Idling(n, x) || Closing(n, x) || Lost(n, x) || exists c: Cid :: Holds(n, c, x) {
      if x in k.all && !Idling(k, x) && !Closing(k, x) && !Lost(k, x) {
        var c: Cid :| Holds(k, c, x);
        assert Holds(n, c, x);
      }
    }
    assert forall c, x :: Holds(n, c, x) <==> Holds(k, c, x);
    assert Distinct(n.queue);
  }

  lemma BorrowKeeps(k: Custody, c: Cid)
    requires Exclusive(k) && k.queue != [] && c !in k.jobs
    ensures Exclusive(Borrow(k, c))
  {
    var n, b := Borrow(k, c), k.queue[0];
    assert Idling(k, b);
    assert forall i :: 1 <= i < |k.queue| ==> k.queue[i] != k.queue[0];
    assert forall x :: Idling(n, x) <==> Idling(k, x) && x != b;
    assert forall x :: Closing(n, x) <==> Closing(k, x);
    assert forall d, x :: Holds(n, d, x) <==> Holds(k, d, x) || (d == c && x == b);
    forall x | x in n.all ensures Idling(n, x) || Closing(n, x) || Lost(n, x) || exists d: Cid :: Holds(n, d, x) {
      if x == b {
        assert Holds(n, c, x);
      } else if !Idling(k, x) && !Closing(k, x) && !Lost(k, x) {
        var d: Cid :| Holds(k, d, x);
        assert Holds(n, d, x);
      }
    }
  }

  lemma ResumeKeeps(k: Custody, c: Cid)
    requires Exclusive(k) && c in k.pins && c !in k.jobs
    ensures Exclusive(Resume(k, c))
  {
    var n := Resume(k, c);
    assert forall d, x :: Holds(n, d, x) <==> Holds(k, d, x);
    assert forall x :: (Idling(n, x) <==> Idling(k, x)) && (Closing(n, x) <==> Closing(k, x));
  }

  lemma PinKeeps(k: Custody, c: Cid, b: Bid)
    requires Exclusive(k) && c !in k.pins && c in k.jobs && k.jobs[c] == b
    ensures Exclusive(Pin(k, c, b))
  {
    var n := Pin(k, c, b);
    assert Holds(k, c, b);
    assert forall d, x :: Holds(n, d, x) <==> Holds(k, d, x);
    assert forall x :: (Idling(n, x) <==> Idling(k, x)) && (Closing(n, x) <==> Closing(k, x));
    if b in k.owner { assert Holds(k, k.owner[b], b); }
  }

  lemma KeepPinnedKeeps(k: Custody, c: Cid, b: Bid)
    requires Exclusive(k) && c in k.jobs && k.jobs[c] == b && (c in k.pins ==> k.pins[c] == b)
    ensures Exclusive(KeepPinned(k, c, b))
  {
    var p := if c in k.pins then k else Pin(k, c, b);
    if c !in k.pins { PinKeeps(k, c, b); }
    var n := KeepPinned(k, c, b);
    assert forall d, x :: Holds(n, d, x) <==> Holds(p, d, x);
    assert forall x :: (Idling(n, x) <==> Idling(p, x)) && (Closing(n, x) <==> Closing(p, x));
  }

  lemma HandOverLists(k: Custody, n: Custody, c: Cid, b: Bid)
    requires Exclusive(k) && Holds(k, c, b) && n.all == k.all && n.lost == k.lost
    requires (n.queue == k.queue + [b] && n.closing == k.closing) || (n.queue == k.queue
        && n.closing == k.closing + [b])
    ensures Distinct(n.queue) && Distinct(n.closing)
    ensures forall x :: Idling(n, x) ==> x in n.all && !Closing(n, x) && !Lost(n, x)
    ensures forall x :: Closing(n, x) ==> x in n.all && !Lost(n, x)
    ensures forall x :: Idling(n, x) || Closing(n, x) <==> Idling(k, x) || Closing(k, x) || x == b
  {
    assert forall x :: x != b ==> (Idling(n, x) <==> Idling(k, x)) && (Closing(n, x) <==> Closing(k, x));
    assert forall x :: Lost(n, x) <==> Lost(k, x);
    assert !Idling(k, b) && !Closing(k, b) && !Lost(k, b);
    assert n.queue == k.queue + [b] ==> Idling(n, b) && !Closing(n, b);
    assert n.closing == k.closing + [b] ==> Closing(n, b) && !Idling(n, b);
  }

  lemma HandOverHolders(k: Custody, n: Custody, c: Cid, b: Bid)
    requires Exclusive(k) && Holds(k, c, b) && n.lost == k.lost
    requires n.pins == k.pins - (if c in k.pins && k.pins[c] == b then {c} else {})
    requires n.jobs == k.jobs - (if c in k.jobs && k.jobs[c] == b then {c} else {})
    requires n.owner == k.owner - {b}
    ensures forall d, x :: Holds(n, d, x) <==> Holds(k, d, x) && x != b
    ensures forall x, d :: !Lost(n, x) ==> ((x in n.owner && n.owner[x] == d) <==> (d in n.pins && n.pins[d] == x))
  {
    forall d, x ensures Holds(n, d, x) <==> Holds(k, d, x) && x != b {
      if Holds(k, d, b) { assert d == c; }
    }
    if b in k.owner { assert Holds(k, k.owner[b], b); }
  }

  /** The backend goes to one of the two lists and the client lets go of it. */
  lemma HandOver(k: Custody, n: Custody, c: Cid, b: Bid)
    requires Exclusive(k) && Holds(k, c, b) && n.all == k.all && n.lost == k.lost
    requires (n.queue == k.queue + [b] && n.closing == k.closing) || (n.queue == k.queue
        && n.closing == k.closing + [b])
    requires n.pins == k.pins - (if c in k.pins && k.pins[c] == b then {c} else {})
    requires n.jobs == k.jobs - (if c in k.jobs && k.jobs[c] == b then {c} else {})
    requires n.owner == k.owner - {b}
    ensures Exclusive(n)
  {
    HandOverLists(k, n, c, b);
    HandOverHolders(k, n, c, b);
    assert forall x :: Lost(n, x) <==> Lost(k, x);
    hide Idling, Closing, Holds, Lost, Distinct;
    forall x | x in n.all ensures Idling(n, x) || Closing(n, x) || Lost(n, x) || exists d: Cid :: Holds(n, d, x) {
      if x != b && !Idling(k, x) && !Closing(k, x) && !Lost(k, x) {
        var d: Cid :| Holds(k, d, x);
        assert Holds(n, d, x);
      }
    }
  }

  /** Return keeps it exactly when the client is not pinned to the backend it gives back. */
  lemma ReturnKeepsIff(k: Custody, c: Cid, b: Bid)
    requires Exclusive(k) && c in k.jobs && k.jobs[c] == b
    ensures Exclusive(Return(k, c, b)) <==> !(c in k.pins && k.pins[c] == b)
  {
    var n := Return(k, c, b);
    if c in k.pins && k.pins[c] == b {
      assert Holds(n, c, b);
      assert Idling(n, b) || Closing(n, b);
    } else {
      HandOver(k, n, c, b);
    }
  }

  lemma ReleaseKeeps(k: Custody, c: Cid, b: Bid)
    requires Exclusive(k) && Holds(k, c, b) && (c in k.jobs ==> k.jobs[c] == b)
    ensures Exclusive(Release(k, c, b))
    ensures !Holds(Release(k, c, b), c, b)
  {
    if b in k.owner { assert Holds(k, k.owner[b], b); }
    HandOver(k, Release(k, c, b), c, b);
  }

  /** reconcileConn keeps exclusive ownership unless the reply was lost while the client has named statements on
      its pinned backend: then the backend is queued for others and the client still points to it. */
  lemma ReconcileKeepsIff(k: Custody, c: Cid, b: Bid, status: Status, hasNamed: bool)
    requires Exclusive(k) && c in k.jobs && k.jobs[c] == b && (c in k.pins ==> k.pins[c] == b)
    ensures Exclusive(Reconcile(k, c, b, status, c in k.pins, hasNamed))
        <==> !(status.Unread? && c in k.pins && hasNamed)
  {
    if status.Known? && (!status.tx.Idle? || hasNamed) {
      KeepPinnedKeeps(k, c, b);
    } else if c in k.pins && !hasNamed {
      HandOver(k, Reconcile(k, c, b, status, true, false), c, b);
    } else {
      ReturnKeepsIff(k, c, b);
    }
  }

  lemma Dropped(k: Custody, n: Custody, b: Bid)
    requires Exclusive(k) && n.all == k.all - {b} && n.pins == k.pins && n.jobs == k.jobs && n.owner == k.owner
    requires n.lost == k.lost
    requires (k.queue != [] && b == k.queue[0] && n.queue == k.queue[1..] && n.closing == k.closing)
          || (k.closing != [] && b == k.closing[0] && n.closing == k.closing[1..] && n.queue == k.queue)
    ensures Exclusive(n)
  {
    assert if k.queue != [] && b == k.queue[0] then b in k.queue else b in k.closing;
    assert Idling(k, b) || Closing(k, b);
    if k.queue != [] && n.queue == k.queue[1..] && b == k.queue[0] {
      assert forall i :: 1 <= i < |k.queue| ==> k.queue[i] != k.queue[0];
    } else {
      assert forall i :: 1 <= i < |k.closing| ==> k.closing[i] != k.closing[0];
    }
    assert forall x :: x != b ==> (Idling(n, x) <==> Idling(k, x)) && (Closing(n, x) <==> Closing(k, x));
    assert !Idling(n, b) && !Closing(n, b);
    assert forall d, x :: Holds(n, d, x) <==> Holds(k, d, x);
    forall x | x in n.all ensures Idling(n, x) || Closing(n, x) || Lost(n, x) || exists d: Cid :: Holds(n, d, x) {
      if !Idling(k, x) && !Closing(k, x) && !Lost(k, x) {
        var d: Cid :| Holds(k, d, x);
        assert Holds(n, d, x);
      }
    }
  }

  lemma CloseKeeps(k: Custody)
    requires Exclusive(k) && k.closing != []
    ensures Exclusive(Close(k))
  {
    Dropped(k, Close(k), k.closing[0]);
  }

  lemma ShrinkKeeps(k: Custody)
    requires Exclusive(k) && k.queue != []
    ensures Exclusive(Shrink(k))
  {
    Dropped(k, Shrink(k), k.queue[0]);
  }

  lemma LosingPinKeeps(k: Custody, c: Cid, n: Custody)
    requires Exclusive(k) && c in k.pins && n == k.(pins := k.pins - {c}, lost := k.lost + {k.pins[c]})
    requires LeavesPin(k, c)
    ensures Exclusive(n)
  {
    var b := k.pins[c];
    assert Holds(k, c, b);
    assert forall x :: (Idling(n, x) <==> Idling(k, x)) && (Closing(n, x) <==> Closing(k, x));
    assert forall x :: Lost(n, x) <==> Lost(k, x) || x == b;
    forall d, x ensures Holds(n, d, x) <==> Holds(k, d, x) && x != b {
      if Holds(k, d, b) { assert d == c; }
    }
    forall x | x in n.all ensures Idling(n, x) || Closing(n, x) || Lost(n, x) || exists d: Cid :: Holds(n, d, x) {
      if x != b && !Idling(k, x) && !Closing(k, x) && !Lost(k, x) {
        var d: Cid :| Holds(k, d, x);
        assert Holds(n, d, x);
      }
    }
  }

  /** Closing a client's socket under it keeps the books; it loses a connection exactly when the client is pinned to
      one that it is not working on. */
  lemma DropKeeps(k: Custody, c: Cid)
    requires Exclusive(k)
    ensures Exclusive(Drop(k, c))
    ensures c !in Drop(k, c).pins && c !in Drop(k, c).jobs
    ensures Drop(k, c).lost == k.lost + (if LeavesPin(k, c) then {k.pins[c]} else {})
    ensures Drop(k, c).lost == k.lost <==> !LeavesPin(k, c)
  {
    var cut := k.(pins := k.pins - {c}, lost := k.lost + if LeavesPin(k, c) then {k.pins[c]} else {});
    if c in k.pins { assert Holds(k, c, k.pins[c]); }
    if LeavesPin(k, c) {
      LosingPinKeeps(k, c, cut);
      assert !Lost(k, k.pins[c]);
      if c in k.jobs {
        assert Holds(cut, c, k.jobs[c]);
        ReleaseKeeps(cut, c, k.jobs[c]);
      }
    } else if c in k.jobs {
      var b := k.jobs[c];
      assert Holds(k, c, b);
      OwnerIsHolder(k, c, b);
      HandOver(k, Drop(k, c), c, b);
    } else {
      assert Drop(k, c) == k;
    }
  }

  lemma {:induction false} WithoutKeeps(q: seq<Bid>, stale: set<Bid>)
    ensures forall x :: x in Without(q, stale) <==> x in q && x !in stale
    ensures Distinct(q) ==> Distinct(Without(q, stale))
  {
    if q != [] {
      var n := |q| - 1;
      WithoutKeeps(q[..n], stale);
      assert forall x :: x in q <==> x in q[..n] || x == q[n];
      assert Distinct(q) ==> Distinct(q[..n]) && q[n] !in q[..n];
    }
  }

  lemma EvictKeeps(k: Custody, stale: set<Bid>)
    requires Exclusive(k)
    ensures Exclusive(Evict(k, stale))
  {
    var n := Evict(k, stale);
    WithoutKeeps(k.queue, stale);
    assert forall x :: Idling(n, x) <==> Idling(k, x) && x !in stale;
    assert forall x :: (Closing(n, x) <==> Closing(k, x)) && (Lost(n, x) <==> Lost(k, x));
    assert forall x :: x in n.all <==> x in k.all && !(Idling(k, x) && x in stale);
    assert forall d, x :: Holds(n, d, x) <==> Holds(k, d, x);
    forall x | x in n.all ensures Idling(n, x) || Closing(n, x) || Lost(n, x) || exists d: Cid :: Holds(n, d, x) {
      if !Idling(k, x) && !Closing(k, x) && !Lost(k, x) {
        var d: Cid :| Holds(k, d, x);
        assert Holds(n, d, x);
      }
    }
  }

  /** The client that a backend points to is the one that holds it. */
  lemma OwnerIsHolder(k: Custody, c: Cid, b: Bid)
    requires Exclusive(k) && Holds(k, c, b)
    ensures b in k.owner <==> c in k.pins && k.pins[c] == b
    ensures b in k.owner ==> k.owner[b] == c
  {
    if b in k.owner { assert Holds(k, k.owner[b], b); }
  }

  predicate SamePin(k: Custody, n: Custody, c: Cid) {
    (c in n.pins <==> c in k.pins) && (c in k.pins ==> n.pins[c] == k.pins[c])
  }

  /** Whatever happens to a client's backend, no other client's pin moves. */
  lemma OtherPinsStay(k: Custody, d: Cid, b: Bid, c: Cid)
    requires Exclusive(k) && Holds(k, d, b) && c != d
    ensures SamePin(k, Release(k, d, b), c) && SamePin(k, Return(k, d, b), c) && SamePin(k, KeepPinned(k, d, b), c)
    ensures forall status, wasPinned, named {:trigger Reconcile(k, d, b, status, wasPinned, named)} ::
              SamePin(k, Reconcile(k, d, b, status, wasPinned, named), c)
  {
    OwnerIsHolder(k, d, b);
    hide Exclusive;
  }

  lemma DropLeavesOthers(k: Custody, d: Cid, c: Cid)
    requires Exclusive(k) && c != d
    ensures SamePin(k, Drop(k, d), c)
  {
    if d in k.jobs {
      assert Holds(k, d, k.jobs[d]);
      OwnerIsHolder(k, d, k.jobs[d]);
    }
    hide Exclusive;
  }
}
