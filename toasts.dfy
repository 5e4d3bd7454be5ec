/** The toast notification queue: an ordered list of transient messages,
    appended by `addToast`, filtered by `removeToast` and by the eviction
    callback each `addToast` schedules. */
module Toasts {
  import opened Types

  datatype Severity = Success | Error | Info

  /** Toast ids come from a fresh-id supply; here they are creation ordinals. */
  type ToastId = nat

  datatype Toast = Toast(id: ToastId, message: string, severity: Severity)

  /** The `type` parameter defaults to `'info'`. */
  function SeverityOrDefault(s: Option<Severity>): Severity {
    match s
    case None => Info
    case Some(v) => v
  }

  function Ids(q: seq<Toast>): set<ToastId> {
    set i | 0 <= i < |q| :: q[i].id
  }

  ghost predicate DistinctIds(q: seq<Toast>) {
    forall i, j :: 0 <= i < j < |q| ==> q[i].id != q[j].id
  }

  /** Ids grow from the front of the queue to its back: since ids are handed
      out in creation order, this is creation order, and it makes ids unique. */
  ghost predicate IncreasingIds(q: seq<Toast>) {
    forall i, j :: 0 <= i < j < |q| ==> q[i].id < q[j].id
  }

  /** `a` is `b` with some entries dropped and the rest in the same order. */
  ghost predicate Subsequence(a: seq<Toast>, b: seq<Toast>)
    decreases |b|
  {
    if a == [] then true
    else if b == [] then false
    else if a[0] == b[0] then Subsequence(a[1..], b[1..])
    else Subsequence(a, b[1..])
  }

  /** The `addToast` updater `[...current, toast]`. */
  function Appended(q: seq<Toast>, t: Toast): (r: seq<Toast>)
    ensures |r| == |q| + 1 && r[..|q|] == q && r[|q|] == t
  {
    q + [t]
  }

  /** The `removeToast` and eviction updater `current.filter(t => t.id !== id)`. */
  function Without(q: seq<Toast>, id: ToastId): (r: seq<Toast>)
    ensures forall t :: t in r <==> t in q && t.id != id
    ensures id !in Ids(r)
    ensures |r| <= |q|
  {
    if q == [] then []
    else if q[0].id == id then Without(q[1..], id)
    else [q[0]] + Without(q[1..], id)
  }

  /** Removing an id that is not in the queue changes nothing. */
  lemma {:induction false} WithoutAbsent(q: seq<Toast>, id: ToastId)
    requires id !in Ids(q)
    ensures Without(q, id) == q
  {
    if q != [] {
      assert q[0].id != id by { assert q[0].id == q[0].id; assert q[0].id in Ids(q); }
      assert Ids(q[1..]) <= Ids(q) by {
        forall x | x in Ids(q[1..]) ensures x in Ids(q) {
          var i :| 0 <= i < |q[1..]| && q[1..][i].id == x;
          assert q[i + 1].id == x;
        }
      }
      WithoutAbsent(q[1..], id);
    }
  }

  /** Removing twice is removing once: the second removal finds nothing. */
  lemma WithoutIdempotent(q: seq<Toast>, id: ToastId)
    ensures Without(Without(q, id), id) == Without(q, id)
  {
    WithoutAbsent(Without(q, id), id);
  }

  /** Dismissal and eviction of two ids give the same queue in either order. */
  lemma {:induction false} WithoutCommutes(q: seq<Toast>, a: ToastId, b: ToastId)
    ensures Without(Without(q, a), b) == Without(Without(q, b), a)
  {
    if q != [] {
      WithoutCommutes(q[1..], a, b);
    }
  }

  /** Removal keeps the remaining entries in their original order. */
  lemma {:induction false} WithoutIsSubsequence(q: seq<Toast>, id: ToastId)
    ensures Subsequence(Without(q, id), q)
  {
    if q != [] {
      WithoutIsSubsequence(q[1..], id);
      var w := Without(q[1..], id);
      if q[0].id == id {
        assert w == [] || w[0] != q[0] by {
          if w != [] { assert w[0] in w; }
        }
      } else {
        assert ([q[0]] + w)[1..] == w;
      }
    }
  }

  /** Removal distributes over concatenation. */
  lemma {:induction false} WithoutConcat(a: seq<Toast>, b: seq<Toast>, id: ToastId)
    ensures Without(a + b, id) == Without(a, id) + Without(b, id)
  {
    if a == [] {
      assert a + b == b;
    } else {
      assert (a + b)[0] == a[0];
      assert (a + b)[1..] == a[1..] + b;
      WithoutConcat(a[1..], b, id);
    }
  }

  /** Removing the toast just added restores the queue it was added to. */
  lemma AddThenRemove(q: seq<Toast>, t: Toast)
    requires t.id !in Ids(q)
    ensures Without(Appended(q, t), t.id) == q
  {
    WithoutConcat(q, [t], t.id);
    WithoutAbsent(q, t.id);
  }

  /** In a queue with unique ids, removing an id that is present drops exactly
      that one entry. */
  lemma {:induction false} WithoutPresent(q: seq<Toast>, k: nat)
    requires k < |q| && DistinctIds(q)
    ensures Without(q, q[k].id) == q[..k] + q[k + 1..]
  {
    var id := q[k].id;
    var rest := q[1..];
    DistinctTail(q);
    if k == 0 {
      WithoutAbsent(rest, id);
    } else {
      assert q[0].id != id;
      assert rest[k - 1] == q[k];
      WithoutPresent(rest, k - 1);
      SliceAfterHead(q, k);
    }
  }

  lemma SliceAfterHead(q: seq<Toast>, k: nat)
    requires 0 < k < |q|
    ensures q[..k] + q[k + 1..] == [q[0]] + (q[1..][..k - 1] + q[1..][k..])
  {
  }

  lemma DistinctTail(q: seq<Toast>)
    requires q != [] && DistinctIds(q)
    ensures DistinctIds(q[1..])
    ensures q[0].id !in Ids(q[1..])
  {
    var rest := q[1..];
    forall i, j | 0 <= i < j < |rest| ensures rest[i].id != rest[j].id {
      assert rest[i] == q[i + 1] && rest[j] == q[j + 1];
    }
    forall i | 0 <= i < |rest| ensures rest[i].id != q[0].id {
      assert rest[i] == q[i + 1];
    }
  }

  /** Removal keeps ids increasing. */
  lemma {:induction false} WithoutIncreasing(q: seq<Toast>, id: ToastId)
    requires IncreasingIds(q)
    ensures IncreasingIds(Without(q, id))
  {
    if q != [] {
      assert IncreasingIds(q[1..]);
      WithoutIncreasing(q[1..], id);
      var w := Without(q[1..], id);
      if q[0].id != id {
        forall j | 0 <= j < |w| ensures q[0].id < w[j].id {
          assert w[j] in w;
          var m :| 1 <= m < |q| && q[m] == w[j];
        }
      }
    }
  }

  /** Increasing ids are distinct. */
  lemma IncreasingIsDistinct(q: seq<Toast>)
    requires IncreasingIds(q)
    ensures DistinctIds(q)
  {
  }

  /** The queue together with the eviction callbacks `setTimeout` has
      scheduled and that have not fired yet. */
  class ToastQueue {
    var toasts: seq<Toast>
    /** The fresh-id supply standing for `crypto.randomUUID`. */
    var nextId: ToastId
    /** Ids whose eviction callback is still pending. */
    var timers: set<ToastId>
    /** Every toast ever added, in the order added. */
    ghost var history: seq<Toast>

    ghost predicate Valid()
      reads this
    {
      && nextId == |history|
      && (forall k :: 0 <= k < |history| ==> history[k].id == k)
      && (forall i :: 0 <= i < |toasts| ==> toasts[i].id < |history| && toasts[i] == history[toasts[i].id])
      && IncreasingIds(toasts)
      && Ids(toasts) <= timers
      && (forall id :: id in timers ==> id < nextId)
    }

    constructor ()
      ensures Valid()
      ensures toasts == [] && timers == {} && history == []
    {
      toasts := [];
      nextId := 0;
      timers := {};
      history := [];
    }

    /** `addToast(message, type)`: append one toast with a fresh id and
        schedule its eviction. */
    method AddToast(message: string, severity: Option<Severity>) returns (id: ToastId)
      requires Valid()
      modifies this
      ensures Valid()
      ensures id !in Ids(old(history)) && id !in old(timers)
      ensures toasts == Appended(old(toasts), Toast(id, message, SeverityOrDefault(severity)))
      ensures timers == old(timers) + {id}
      ensures history == old(history) + [Toast(id, message, SeverityOrDefault(severity))]
      ensures toasts[|toasts| - 1].severity == if severity.Some? then severity.value else Info
    {
      id := nextId;
      var t := Toast(id, message, SeverityOrDefault(severity));
      assert id !in Ids(history);
      toasts := Appended(toasts, t);
      history := history + [t];
      nextId := nextId + 1;
      timers := timers + {id};
      forall i | 0 <= i < |toasts| ensures toasts[i].id < |history| && toasts[i] == history[toasts[i].id] {
        if i < |toasts| - 1 {
          assert toasts[i] == old(toasts)[i];
        }
      }
      assert Ids(toasts) == Ids(old(toasts)) + {id} by {
        forall x | x in Ids(toasts) ensures x in Ids(old(toasts)) + {id} {
          var i :| 0 <= i < |toasts| && toasts[i].id == x;
          if i < |toasts| - 1 { assert old(toasts)[i].id == x; }
        }
        forall x | x in Ids(old(toasts)) ensures x in Ids(toasts) {
          var i :| 0 <= i < |old(toasts)| && old(toasts)[i].id == x;
          assert toasts[i].id == x;
        }
      }
    }

    /** `removeToast(id)`: drop the toast with that id, if any. The pending
        eviction callback is not cancelled. */
    method RemoveToast(id: ToastId)
      requires Valid()
      modifies this`toasts
      ensures Valid()
      ensures toasts == Without(old(toasts), id)
      ensures id !in Ids(toasts)
    {
      WithoutIncreasing(toasts, id);
      toasts := Without(toasts, id);
      RemovalKeepsValid(old(toasts), id);
    }

    /** The eviction callback of toast `id` fires: the same filter as
        `removeToast`, and the callback is no longer pending. */
    method Evict(id: ToastId)
      requires Valid()
      requires id in timers
      modifies this`toasts, this`timers
      ensures Valid()
      ensures toasts == Without(old(toasts), id)
      ensures timers == old(timers) - {id}
    {
      WithoutIncreasing(toasts, id);
      toasts := Without(toasts, id);
      RemovalKeepsValid(old(toasts), id);
      timers := timers - {id};
      forall x | x in Ids(toasts) ensures x in timers {
        var i :| 0 <= i < |toasts| && toasts[i].id == x;
        assert toasts[i] in toasts;
      }
    }

    /** What remains after a removal is still taken from the history, and only
        ids of the old queue remain. */
    lemma RemovalKeepsValid(q: seq<Toast>, id: ToastId)
      requires forall i :: 0 <= i < |q| ==> q[i].id < |history| && q[i] == history[q[i].id]
      ensures forall i :: 0 <= i < |Without(q, id)| ==>
        Without(q, id)[i].id < |history| && Without(q, id)[i] == history[Without(q, id)[i].id]
      ensures Ids(Without(q, id)) <= Ids(q)
    {
      var w := Without(q, id);
      forall i | 0 <= i < |w| ensures w[i].id < |history| && w[i] == history[w[i].id] {
        assert w[i] in w;
        var m :| 0 <= m < |q| && q[m] == w[i];
      }
      forall x | x in Ids(w) ensures x in Ids(q) {
        var i :| 0 <= i < |w| && w[i].id == x;
        assert w[i] in w;
        var m :| 0 <= m < |q| && q[m] == w[i];
      }
    }
  }
}
