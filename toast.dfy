/** The toast notification queue: a module-level list of toasts changed
    only through `dispatch`, and a counter that names new toasts. */
module Toasts {
  import opened Common
  import opened Decimal

  /** At most this many toasts are kept. */
  const TOAST_LIMIT: nat := 1

  /** `Number.MAX_SAFE_INTEGER`, the modulus of the id counter. */
  const MAX_SAFE_INTEGER: nat := 9007199254740991

  datatype ToasterToast = ToasterToast(id: string, title: Option<string>, description: Option<string>, open: bool)

  /** What a caller of `toast` passes: everything but the id and the flags. */
  datatype ToastProps = ToastProps(title: Option<string>, description: Option<string>)

  /** `Partial<ToasterToast>`. */
  datatype ToastPatch = ToastPatch(id: Option<string>, title: Option<string>, description: Option<string>,
                                   open: Option<bool>)
  {
    function ApplyTo(t: ToasterToast): ToasterToast {
      ToasterToast(if id.Some? then id.value else t.id,
                   if title.Some? then title else t.title,
                   if description.Some? then description else t.description,
                   if open.Some? then open.value else t.open)
    }
  }

  datatype Action =
    | AddToast(toast: ToasterToast)
    | UpdateToast(patch: ToastPatch)
    | DismissToast(toastId: Option<string>)
    | RemoveToast(toastId: Option<string>)

  /** Dismissing with no id closes every toast; with an id, the ones
      carrying it. */
  function DismissSelects(toastId: Option<string>): ToasterToast -> bool
  {
    (t: ToasterToast) => toastId.None? || toastId == Some(t.id)
  }

  function Closing(): ToasterToast -> ToasterToast
  {
    (t: ToasterToast) => t.(open := false)
  }

  function UpdateSelects(patch: ToastPatch): ToasterToast -> bool
  {
    (t: ToasterToast) => patch.id == Some(t.id)
  }

  function Patching(patch: ToastPatch): ToasterToast -> ToasterToast
  {
    (t: ToasterToast) => patch.ApplyTo(t)
  }

  function IdIs(id: string): ToasterToast -> bool
  {
    (t: ToasterToast) => t.id == id
  }

  /** The list after one `dispatch`. */
  function Reduce(toasts: seq<ToasterToast>, action: Action): (r: seq<ToasterToast>)
    ensures action.AddToast? ==>
              |r| == TOAST_LIMIT && r[0] == action.toast
    ensures action.UpdateToast? ==>
              |r| == |toasts| &&
              forall i :: 0 <= i < |toasts| ==>
                r[i] == (if action.patch.id == Some(toasts[i].id) then action.patch.ApplyTo(toasts[i]) else toasts[i])
    ensures action.DismissToast? ==>
              |r| == |toasts| &&
              forall i :: 0 <= i < |toasts| ==>
                r[i] == (if action.toastId.None? || action.toastId == Some(toasts[i].id)
                         then toasts[i].(open := false) else toasts[i])
    ensures action == RemoveToast(None) ==> r == []
    ensures action.RemoveToast? && action.toastId.Some? ==>
              (forall i :: 0 <= i < |r| ==> r[i].id != action.toastId.value && r[i] in toasts) &&
              (forall i :: 0 <= i < |toasts| && toasts[i].id != action.toastId.value ==> toasts[i] in r)
  {
    match action
    case AddToast(t) => ([t] + toasts)[..TOAST_LIMIT]
    case UpdateToast(patch) => UpdateWhere(toasts, UpdateSelects(patch), Patching(patch))
    case DismissToast(toastId) => UpdateWhere(toasts, DismissSelects(toastId), Closing())
    case RemoveToast(toastId) =>
      if toastId.None? then [] else RemoveWhere(toasts, IdIs(toastId.value))
  }

  /** No action ever makes the list longer than the limit. */
  lemma LimitKept(toasts: seq<ToasterToast>, action: Action)
    requires |toasts| <= TOAST_LIMIT
    ensures |Reduce(toasts, action)| <= TOAST_LIMIT
  {
  }

  /** A new toast replaces whatever was shown. */
  lemma AddShowsOnlyNewest(toasts: seq<ToasterToast>, t: ToasterToast)
    ensures Reduce(toasts, AddToast(t)) == [t]
  {
  }

  /** Dismissing is idempotent, and dismissing everything closes every toast
      without removing any. */
  lemma DismissIdempotent(toasts: seq<ToasterToast>, toastId: Option<string>)
    ensures Reduce(Reduce(toasts, DismissToast(toastId)), DismissToast(toastId)) == Reduce(toasts, DismissToast(toastId))
  {
    var once := Reduce(toasts, DismissToast(toastId));
    var twice := Reduce(once, DismissToast(toastId));
    assert forall i :: 0 <= i < |once| ==> twice[i] == once[i];
  }

  lemma DismissAllCloses(toasts: seq<ToasterToast>)
    ensures |Reduce(toasts, DismissToast(None))| == |toasts|
    ensures forall i :: 0 <= i < |toasts| ==>
              !Reduce(toasts, DismissToast(None))[i].open && Reduce(toasts, DismissToast(None))[i].id == toasts[i].id
  {
  }

  /** Dismiss then remove by the same id: the toast is gone either way. */
  lemma DismissThenRemove(toasts: seq<ToasterToast>, id: string)
    ensures forall i :: 0 <= i < |Reduce(Reduce(toasts, DismissToast(Some(id))), RemoveToast(Some(id)))| ==>
              Reduce(Reduce(toasts, DismissToast(Some(id))), RemoveToast(Some(id)))[i].id != id
  {
  }

  /** The counter step of `genId`. */
  function NextCount(c: nat): (r: nat)
    ensures r < MAX_SAFE_INTEGER
    ensures c < MAX_SAFE_INTEGER - 1 ==> r == c + 1
  {
    (c + 1) % MAX_SAFE_INTEGER
  }

  /** The counter after `k` calls of `genId`. */
  function Advance(c: nat, k: nat): nat
  {
    if k == 0 then c else NextCount(Advance(c, k - 1))
  }

  lemma {:induction false} AdvanceIsModular(c: nat, k: nat)
    requires c < MAX_SAFE_INTEGER
    ensures Advance(c, k) == (c + k) % MAX_SAFE_INTEGER
  {
    if k > 0 {
      AdvanceIsModular(c, k - 1);
      var m := MAX_SAFE_INTEGER;
      var a := c + k - 1;
      assert a == (a / m) * m + a % m;
      if a % m + 1 == m {
        assert c + k == (a / m + 1) * m;
      } else {
        assert c + k == (a / m) * m + (a % m + 1);
      }
    }
  }

  /** A sum below twice the bound wraps at most once. */
  lemma WrapsOnce(x: nat)
    requires x < 2 * MAX_SAFE_INTEGER
    ensures x % MAX_SAFE_INTEGER == if x < MAX_SAFE_INTEGER then x else x - MAX_SAFE_INTEGER
  {
    if x >= MAX_SAFE_INTEGER {
      assert x == MAX_SAFE_INTEGER + (x - MAX_SAFE_INTEGER);
    }
  }

  /** Fewer than `MAX_SAFE_INTEGER` calls from a reachable counter wrap
      around at most once. */
  lemma AdvanceWithinBound(c: nat, k: nat)
    requires c < MAX_SAFE_INTEGER && k < MAX_SAFE_INTEGER
    ensures Advance(c, k) == if c + k < MAX_SAFE_INTEGER then c + k else c + k - MAX_SAFE_INTEGER
  {
    AdvanceIsModular(c, k);
    WrapsOnce(c + k);
  }

  /** `genId` does not repeat an id within fewer than `MAX_SAFE_INTEGER`
      consecutive calls. */
  lemma IdsDoNotRepeat(c: nat, j: nat, k: nat)
    requires c < MAX_SAFE_INTEGER
    requires j < k < MAX_SAFE_INTEGER
    ensures NatToString(Advance(c, j)) != NatToString(Advance(c, k))
  {
    AdvanceWithinBound(c, j);
    AdvanceWithinBound(c, k);
    NatToStringInjective(Advance(c, j), Advance(c, k));
  }

  class Toaster {
    var toasts: seq<ToasterToast>
    var count: nat

    constructor ()
      ensures toasts == [] && count == 0
    {
      toasts := [];
      count := 0;
    }

    /** The counter stays below its modulus and the list within the limit. */
    predicate Valid()
      reads this
    {
      count < MAX_SAFE_INTEGER && |toasts| <= TOAST_LIMIT
    }

    method Dispatch(action: Action)
      modifies this
      requires Valid()
      ensures Valid()
      ensures toasts == Reduce(old(toasts), action) && count == old(count)
    {
      LimitKept(toasts, action);
      toasts := Reduce(toasts, action);
    }

    method GenId() returns (id: string)
      modifies this
      requires Valid()
      ensures Valid()
      ensures count == NextCount(old(count)) && id == NatToString(count)
      ensures toasts == old(toasts)
    {
      count := NextCount(count);
      id := NatToString(count);
    }

    /** A fresh, open toast with the next id. */
    method CreateToast(props: ToastProps) returns (t: ToasterToast)
      modifies this
      requires Valid()
      ensures Valid()
      ensures count == NextCount(old(count))
      ensures t == ToasterToast(NatToString(count), props.title, props.description, true)
      ensures toasts == old(toasts)
    {
      var id := GenId();
      t := ToasterToast(id, props.title, props.description, true);
    }

    /** `toast(props)`: the new toast is the only one shown. */
    method Toast(props: ToastProps) returns (t: ToasterToast)
      modifies this
      requires Valid()
      ensures Valid()
      ensures count == NextCount(old(count))
      ensures t == ToasterToast(NatToString(count), props.title, props.description, true)
      ensures toasts == [t]
    {
      t := CreateToast(props);
      Dispatch(AddToast(t));
    }

    /** `dismiss` as `useToast` hands it out. */
    method Dismiss(toastId: Option<string>)
      modifies this
      requires Valid()
      ensures Valid()
      ensures toasts == Reduce(old(toasts), DismissToast(toastId)) && count == old(count)
    {
      Dispatch(DismissToast(toastId));
    }

    /** A toast's `onOpenChange`: closing it dismisses that toast only. */
    method OnOpenChange(t: ToasterToast, open: bool)
      modifies this
      requires Valid()
      ensures Valid()
      ensures toasts == (if open then old(toasts) else Reduce(old(toasts), DismissToast(Some(t.id))))
      ensures count == old(count)
    {
      if !open {
        Dispatch(DismissToast(Some(t.id)));
      }
    }
  }
}
