/** The browser's pending `setTimeout` callbacks, as a list of (id, deadline,
    action) entries on an abstract integer clock. */
module Timers {

  datatype Option<T> = None | Some(value: T)

  /** The callbacks script.js schedules. */
  datatype Action =
    | ClearFeedback  // empty the feedback region (6000 after an accepted submit)
    | ResetCleanup   // the reset handler's deferred clean-up (10 after a reset)
    | AutoHide       // `hideBanner` (4000 after `showBanner`)
    | HideDisplay    // `display = 'none'` (260 after `hideBanner`; never cancelled)

  datatype Timer = Timer(id: nat, due: int, action: Action)

  /** The id of the `i`-th pending timer. */
  function IdAt(q: seq<Timer>, i: nat): nat
    requires i < |q|
  {
    q[i].id
  }

  /** No two pending timers share an id. */
  predicate DistinctIds(q: seq<Timer>) {
    forall a, b :: 0 <= a < b < |q| ==> IdAt(q, a) != IdAt(q, b)
  }

  /** What the queue keeps between two events: distinct ids below the next
      id to hand out, and no deadline already in the past. */
  predicate QueueOk(q: seq<Timer>, nextId: nat, now: int) {
    DistinctIds(q) && forall t :: t in q ==> t.id < nextId && now <= t.due
  }

  /** `clearTimeout(id)`: drop the timer with that id. */
  function Cancel(q: seq<Timer>, id: nat): seq<Timer> {
    if q == [] then []
    else if q[0].id == id then Cancel(q[1..], id)
    else [q[0]] + Cancel(q[1..], id)
  }

  /** Cancelling keeps exactly the timers with another id. */
  lemma {:induction false} CancelMembers(q: seq<Timer>, id: nat)
    ensures forall t :: t in Cancel(q, id) <==> t in q && t.id != id
  {
    if q != [] {
      CancelMembers(q[1..], id);
      assert q == [q[0]] + q[1..];
    }
  }

  /** Cancelling keeps the order of the remaining timers, so an id that is
      not pending changes nothing. */
  lemma {:induction false} CancelAbsent(q: seq<Timer>, id: nat)
    requires forall t :: t in q ==> t.id != id
    ensures Cancel(q, id) == q
  {
    if q != [] {
      assert q[0] in q;
      assert forall t :: t in q[1..] ==> t in q;
      CancelAbsent(q[1..], id);
    }
  }

  /** Cancelling the only pending timer leaves none. */
  lemma CancelOnly(t: Timer)
    ensures Cancel([t], t.id) == []
  {
    assert [t][1..] == [];
  }

  /** Cancelling keeps the ids distinct. */
  lemma {:induction false} CancelDistinct(q: seq<Timer>, id: nat)
    requires DistinctIds(q)
    ensures DistinctIds(Cancel(q, id))
  {
    if q != [] {
      assert DistinctIds(q[1..]) by {
        forall a, b | 0 <= a < b < |q[1..]| ensures IdAt(q[1..], a) != IdAt(q[1..], b) {
          assert IdAt(q, a + 1) != IdAt(q, b + 1);
        }
      }
      CancelDistinct(q[1..], id);
      var rest := Cancel(q[1..], id);
      CancelMembers(q[1..], id);
      forall t | t in rest ensures t.id != q[0].id {
        var b :| 0 <= b < |q[1..]| && q[1..][b] == t;
        assert IdAt(q, 0) != IdAt(q, b + 1);
      }
      if q[0].id != id {
        var r := [q[0]] + rest;
        forall a, b | 0 <= a < b < |r| ensures IdAt(r, a) != IdAt(r, b) {
          if a == 0 { assert r[b] == rest[b - 1] && r[b] in rest; }
          else { assert IdAt(rest, a - 1) != IdAt(rest, b - 1); }
        }
      }
    }
  }

  /** `if (hideTimeout) clearTimeout(hideTimeout)`. */
  function CancelPending(q: seq<Timer>, h: Option<nat>): seq<Timer> {
    if h.Some? then Cancel(q, h.value) else q
  }

  /** Clearing the handle's timer keeps the queue well formed and leaves no
      hide pending. */
  lemma CancelPendingKeeps(q: seq<Timer>, nextId: nat, now: int, h: Option<nat>)
    requires QueueOk(q, nextId, now) && HidesNamed(q, h)
    ensures QueueOk(CancelPending(q, h), nextId, now)
    ensures forall t :: t in CancelPending(q, h) ==> t.action != AutoHide
  {
    if h.Some? {
      CancelDistinct(q, h.value);
      CancelMembers(q, h.value);
    }
  }

  /** Cancelling an id that is not among the appended timers commutes with
      appending them. */
  lemma {:induction false} CancelAppend(q: seq<Timer>, extra: seq<Timer>, id: nat)
    requires forall t :: t in extra ==> t.id != id
    ensures Cancel(q + extra, id) == Cancel(q, id) + extra
  {
    if q == [] {
      assert [] + extra == extra;
      CancelAbsent(extra, id);
    } else {
      assert (q + extra)[1..] == q[1..] + extra;
      CancelAppend(q[1..], extra, id);
    }
  }

  /** Clearing the handle before or after two timers with other ids are
      appended gives the same queue. */
  lemma CancelPendingAppend(q: seq<Timer>, h: Option<nat>, a: Timer, b: Timer, c: Timer)
    requires h.Some? ==> a.id != h.value && b.id != h.value
    ensures CancelPending(q + [a, b], h) + [c] == CancelPending(q, h) + [a, b, c]
  {
    if h.Some? { CancelAppend(q, [a, b], h.value); }
  }

  /** The index of the timer that fires next: the earliest deadline, and
      among equal deadlines the one scheduled first. */
  function Earliest(q: seq<Timer>): (k: nat)
    requires q != []
    ensures k < |q|
    ensures forall j :: 0 <= j < |q| ==> q[k].due <= q[j].due
    ensures forall j :: 0 <= j < k ==> q[k].due < q[j].due
  {
    if |q| == 1 then 0
    else
      var k := Earliest(q[1..]) + 1;
      if q[0].due <= q[k].due then 0 else k
  }

  /** `q` without its `k`-th entry. */
  function RemoveAt(q: seq<Timer>, k: nat): (r: seq<Timer>)
    requires k < |q|
    ensures |r| == |q| - 1
  {
    q[..k] + q[k + 1..]
  }

  /** Removing an entry keeps every other timer and adds none. */
  lemma RemoveAtMembers(q: seq<Timer>, k: nat)
    requires k < |q|
    ensures forall t :: t in q ==> t in RemoveAt(q, k) || t == q[k]
    ensures forall t :: t in RemoveAt(q, k) ==> t in q
  {
    var r := RemoveAt(q, k);
    forall t | t in q ensures t in r || t == q[k] {
      var j :| 0 <= j < |q| && q[j] == t;
      if j < k { assert r[j] == t; } else if j > k { assert r[j - 1] == t; }
    }
    forall t | t in r ensures t in q {
      var j :| 0 <= j < |r| && r[j] == t;
      if j < k { assert q[j] == t; } else { assert q[j + 1] == t; }
    }
  }

  /** The removal of one timer keeps the ids distinct and leaves no other
      timer with the removed one's id. */
  lemma RemoveAtDistinct(q: seq<Timer>, k: nat)
    requires k < |q| && DistinctIds(q)
    ensures DistinctIds(RemoveAt(q, k))
    ensures forall t :: t in RemoveAt(q, k) ==> t.id != q[k].id
  {
    var r := RemoveAt(q, k);
    forall a, b | 0 <= a < b < |r| ensures IdAt(r, a) != IdAt(r, b) {
      var a' := if a < k then a else a + 1;
      var b' := if b < k then b else b + 1;
      assert r[a] == q[a'] && r[b] == q[b'];
      assert IdAt(q, a') != IdAt(q, b');
    }
    forall t | t in r ensures t.id != q[k].id {
      var j :| 0 <= j < |r| && r[j] == t;
      var j' := if j < k then j else j + 1;
      assert r[j] == q[j'];
      if j' < k { assert IdAt(q, j') != IdAt(q, k); } else { assert IdAt(q, k) != IdAt(q, j'); }
    }
  }

  /** Taking the earliest timer off a well-formed queue and moving the clock
      to its deadline leaves a well-formed queue. */
  lemma FireKeepsQueue(q: seq<Timer>, nextId: nat, now: int)
    requires q != [] && QueueOk(q, nextId, now)
    ensures var k := Earliest(q);
            QueueOk(RemoveAt(q, k), nextId, q[k].due)
            && forall t :: t in RemoveAt(q, k) ==> t.id != q[k].id
  {
    var k := Earliest(q);
    RemoveAtDistinct(q, k);
    RemoveAtMembers(q, k);
    forall t | t in RemoveAt(q, k) ensures q[k].due <= t.due {
      var j :| 0 <= j < |q| && q[j] == t;
    }
  }

  /** A fresh id appended to a well-formed queue keeps it well formed. */
  lemma AppendFresh(q: seq<Timer>, nextId: nat, now: int, delay: nat, action: Action)
    requires QueueOk(q, nextId, now)
    ensures QueueOk(q + [Timer(nextId, now + delay, action)], nextId + 1, now)
  {
    var r := q + [Timer(nextId, now + delay, action)];
    forall a, b | 0 <= a < b < |r| ensures IdAt(r, a) != IdAt(r, b) {
      assert r[a] == q[a] && q[a] in q;
      if b < |q| { assert IdAt(q, a) != IdAt(q, b); }
    }
  }

  /** The banner's handle and the queue agree: every pending `AutoHide` is
      the one `hideTimeout` names, and a named one is pending. */
  predicate HideTracked(q: seq<Timer>, h: Option<nat>) {
    HidesNamed(q, h) && (h.Some? ==> exists t :: t in q && t.id == h.value && t.action == AutoHide)
  }

  /** Every pending `AutoHide` is the one `h` names. */
  predicate HidesNamed(q: seq<Timer>, h: Option<nat>) {
    forall t :: t in q && t.action == AutoHide ==> h == Some(t.id)
  }

  /** Firing a timer that is not a hide keeps the handle tracked; firing the
      hide leaves no hide pending. */
  lemma FireKeepsHides(q: seq<Timer>, k: nat, h: Option<nat>)
    requires k < |q| && DistinctIds(q) && HideTracked(q, h)
    ensures q[k].action != AutoHide ==> HideTracked(RemoveAt(q, k), h)
    ensures q[k].action == AutoHide ==> forall t :: t in RemoveAt(q, k) ==> t.action != AutoHide
  {
    RemoveAtDistinct(q, k);
    RemoveAtMembers(q, k);
    if q[k].action != AutoHide && h.Some? {
      var t :| t in q && t.id == h.value && t.action == AutoHide;
      assert t in RemoveAt(q, k);
    }
    if q[k].action == AutoHide {
      assert q[k] in q;
    }
  }

  /** With distinct ids and a tracked handle, at most one `AutoHide` is
      pending. */
  lemma AtMostOneHide(q: seq<Timer>, h: Option<nat>)
    requires DistinctIds(q) && HideTracked(q, h)
    ensures forall a, b ::
              0 <= a < |q| && 0 <= b < |q| && q[a].action == AutoHide && q[b].action == AutoHide
              ==> a == b
  {
    forall a, b | 0 <= a < b < |q| ensures q[a].action != AutoHide || q[b].action != AutoHide {
      assert q[a] in q && q[b] in q;
      assert IdAt(q, a) != IdAt(q, b);
    }
  }
}
