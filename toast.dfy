/**
 * The toast list of the notification provider: `addToast` appends a toast
 * with a fresh id and `removeToast` filters one id out.
 */
module Toasts {
  import opened Wrappers
  import Decimal
  import Strings

  datatype Kind = Success | Error | Info

  datatype Toast = Toast(id: string, kind: Kind, message: string, duration: int)

  /** The duration a toast gets when the caller passes none. */
  const DefaultDuration: int := 5000

  /** `${Date.now()}-${Math.random().toString(36).slice(2)}`. */
  function ToastId(now: int, random36: string): (r: string)
    ensures Decimal.NumberToString(now) + "-" <= r
    ensures |random36| >= 2 ==> r[|Decimal.NumberToString(now)| + 1..] == random36[2..]
  {
    Decimal.NumberToString(now) + "-" + Strings.Slice(random36, 2, |random36|)
  }

  /**
   * The updater of `addToast`: the new toast goes at the end, the earlier
   * ones stay as they were, and a missing duration becomes 5000 milliseconds.
   */
  function AddToast(prev: seq<Toast>, now: int, random36: string, kind: Kind, message: string,
                    duration: Option<int>): (r: seq<Toast>)
    ensures |r| == |prev| + 1 && r[..|prev|] == prev
    ensures var t := r[|prev|];
            && t.id == ToastId(now, random36) && t.kind == kind && t.message == message
            && (duration.Some? ==> t.duration == duration.value)
            && (duration.None? ==> t.duration == DefaultDuration)
  {
    prev + [Toast(ToastId(now, random36), kind, message, duration.GetOr(DefaultDuration))]
  }

  /** The updater of `removeToast`: `prev.filter(t => t.id !== id)`. */
  function RemoveToast(prev: seq<Toast>, id: string): (r: seq<Toast>)
    ensures |r| <= |prev|
    ensures forall i :: 0 <= i < |r| ==> r[i].id != id
  {
    if prev == [] then []
    else if prev[0].id == id then RemoveToast(prev[1..], id)
    else [prev[0]] + RemoveToast(prev[1..], id)
  }

  /**
   * After removal no toast has the id, and each other toast is kept as
   * often as it occurred.
   */
  lemma {:induction false} RemoveToastSpec(prev: seq<Toast>, id: string)
    ensures forall t :: t in RemoveToast(prev, id) ==> t.id != id
    ensures forall t :: multiset(RemoveToast(prev, id))[t] == if t.id == id then 0 else multiset(prev)[t]
  {
    if prev != [] {
      RemoveToastSpec(prev[1..], id);
      assert prev == [prev[0]] + prev[1..];
    }
  }

  /** Removal keeps the order: it distributes over concatenation. */
  lemma {:induction false} RemoveToastAppend(a: seq<Toast>, b: seq<Toast>, id: string)
    ensures RemoveToast(a + b, id) == RemoveToast(a, id) + RemoveToast(b, id)
  {
    if a != [] {
      RemoveToastAppend(a[1..], b, id);
      assert (a + b)[1..] == a[1..] + b;
    } else {
      assert a + b == b;
    }
  }

  /** Removing an id no toast has changes nothing. */
  lemma {:induction false} RemoveAbsent(prev: seq<Toast>, id: string)
    requires forall i :: 0 <= i < |prev| ==> prev[i].id != id
    ensures RemoveToast(prev, id) == prev
  {
    if prev != [] {
      RemoveAbsent(prev[1..], id);
      assert prev == [prev[0]] + prev[1..];
    }
  }

  /** Dismissing the same toast twice is dismissing it once. */
  lemma RemoveToastIdempotent(prev: seq<Toast>, id: string)
    ensures RemoveToast(RemoveToast(prev, id), id) == RemoveToast(prev, id)
  {
    var r := RemoveToast(prev, id);
    RemoveToastSpec(prev, id);
    forall i | 0 <= i < |r| ensures r[i].id != id {
      assert r[i] in r;
    }
    RemoveAbsent(r, id);
  }

  /** Dismissing a toast just added, whose id was fresh, gives the list back. */
  lemma RemoveAdded(prev: seq<Toast>, now: int, random36: string, kind: Kind, message: string, duration: Option<int>)
    requires forall i :: 0 <= i < |prev| ==> prev[i].id != ToastId(now, random36)
    ensures RemoveToast(AddToast(prev, now, random36, kind, message, duration), ToastId(now, random36)) == prev
  {
    var id := ToastId(now, random36);
    var t := Toast(id, kind, message, duration.GetOr(DefaultDuration));
    RemoveToastAppend(prev, [t], id);
    RemoveAbsent(prev, id);
    assert RemoveToast([t], id) == [];
  }
}
