/**
 * The toast provider: a list of notifications that `showToast` appends to
 * (unless the same message and type was shown less than 3 s ago),
 * `removeToast` filters by id, and the 5 s timer filters by id again.
 *
 * `Date.now()` and the random id suffix are parameters; the timer firing is
 * the explicit event `Expire`.
 */
module Toasts {
  import opened JsText

  datatype ToastType = Success | Failure

  datatype Toast = Toast(id: string, message: string, kind: ToastType)

  /** A toast younger than this many milliseconds suppresses an identical one. */
  const DuplicateWindowMs: int := 3000

  /** The timer that removes a toast fires this many milliseconds after `showToast`. */
  const LifetimeMs: int := 5000

  /** `${Date.now()}-${suffix}`; the random base-36 suffix holds no '-'. */
  function MakeId(now: nat, suffix: string): string {
    NatToDecimal(now) + "-" + suffix
  }

  /** `parseInt(id.split('-')[0])`: the creation time the id carries (None for NaN). */
  function IdTime(id: string): Option<int> {
    JsParseInt(BeforeFirst(id, '-'))
  }

  /** Decoding an id gives back the time it was built from. */
  lemma IdTimeOfMakeId(now: nat, suffix: string)
    ensures IdTime(MakeId(now, suffix)) == Some(now)
  {
    ParseIntBeforeDash(now, suffix);
  }

  /** The `some` test: same message, same type and `Date.now() - created < 3000`. */
  predicate IsRecentTwin(t: Toast, message: string, kind: ToastType, now: int) {
    && t.message == message && t.kind == kind
    && IdTime(t.id).Some? && now - IdTime(t.id).value < DuplicateWindowMs
  }

  predicate HasRecentTwin(toasts: seq<Toast>, message: string, kind: ToastType, now: int) {
    exists i :: 0 <= i < |toasts| && IsRecentTwin(toasts[i], message, kind, now)
  }

  /** The list after `showToast`: unchanged for a recent duplicate, else the new toast appended. */
  function Shown(toasts: seq<Toast>, message: string, kind: ToastType, now: nat, suffix: string): seq<Toast>
  {
    if HasRecentTwin(toasts, message, kind, now) then toasts
    else toasts + [Toast(MakeId(now, suffix), message, kind)]
  }

  /** `toasts.filter(t => t.id !== id)`. */
  function Without(toasts: seq<Toast>, id: string): (r: seq<Toast>)
    ensures forall t :: t in r <==> t in toasts && t.id != id
    ensures |r| <= |toasts|
  {
    if toasts == [] then []
    else
      assert forall t :: t in toasts <==> t == toasts[0] || t in toasts[1..];
      (if toasts[0].id == id then [] else [toasts[0]]) + Without(toasts[1..], id)
  }

  /** Filtering distributes over concatenation: the kept toasts stay in their order. */
  lemma {:induction false} WithoutConcat(a: seq<Toast>, b: seq<Toast>, id: string)
    ensures Without(a + b, id) == Without(a, id) + Without(b, id)
  {
    if a == [] {
      assert a + b == b;
    } else {
      assert (a + b)[1..] == a[1..] + b;
      WithoutConcat(a[1..], b, id);
    }
  }

  /** Filtering an id nobody has changes nothing. */
  lemma {:induction false} WithoutAbsent(toasts: seq<Toast>, id: string)
    requires forall i :: 0 <= i < |toasts| ==> toasts[i].id != id
    ensures Without(toasts, id) == toasts
  {
    if toasts != [] {
      WithoutAbsent(toasts[1..], id);
    }
  }

  /** A recent identical toast leaves the list as it was; otherwise exactly one toast is added at the end. */
  lemma ShownEffect(toasts: seq<Toast>, message: string, kind: ToastType, now: nat, suffix: string)
    ensures var r := Shown(toasts, message, kind, now, suffix);
      if HasRecentTwin(toasts, message, kind, now) then r == toasts
      else (&& |r| == |toasts| + 1 && r[..|toasts|] == toasts
            && r[|toasts|] == Toast(MakeId(now, suffix), message, kind)
            && IdTime(r[|toasts|].id) == Some(now))
  {
    IdTimeOfMakeId(now, suffix);
  }

  /** The same message and type shown twice within 3 s appears once. */
  lemma RepeatWithinWindowSuppressed(toasts: seq<Toast>, message: string, kind: ToastType,
                                     t0: nat, s0: string, t1: nat, s1: string)
    requires !HasRecentTwin(toasts, message, kind, t0)
    requires t0 <= t1 < t0 + DuplicateWindowMs
    ensures var once := Shown(toasts, message, kind, t0, s0);
      Shown(once, message, kind, t1, s1) == once
  {
    var once := Shown(toasts, message, kind, t0, s0);
    IdTimeOfMakeId(t0, s0);
    assert IsRecentTwin(once[|toasts|], message, kind, t1);
  }

  /** The timer of a toast that was shown removes exactly that toast, when its id was fresh. */
  lemma ExpireUndoesShow(toasts: seq<Toast>, message: string, kind: ToastType, now: nat, suffix: string)
    requires forall i :: 0 <= i < |toasts| ==> toasts[i].id != MakeId(now, suffix)
    ensures Without(Shown(toasts, message, kind, now, suffix), MakeId(now, suffix)) == toasts
  {
    var id := MakeId(now, suffix);
    WithoutAbsent(toasts, id);
    if !HasRecentTwin(toasts, message, kind, now) {
      WithoutConcat(toasts, [Toast(id, message, kind)], id);
    }
  }

  /** Removing twice is removing once. */
  lemma WithoutIdempotent(toasts: seq<Toast>, id: string)
    ensures Without(Without(toasts, id), id) == Without(toasts, id)
  {
    var once := Without(toasts, id);
    forall i | 0 <= i < |once| ensures once[i].id != id {
      assert once[i] in once;
    }
    WithoutAbsent(once, id);
  }

  /** The provider's state. */
  class ToastProvider {
    var toasts: seq<Toast>

    constructor ()
      ensures toasts == []
    {
      toasts := [];
    }

    /** `showToast(message, type)`; returns the id its expiry timer will remove. */
    method ShowToast(message: string, kind: ToastType, now: nat, suffix: string) returns (id: string)
      modifies this
      ensures id == MakeId(now, suffix) && IdTime(id) == Some(now)
      ensures toasts == Shown(old(toasts), message, kind, now, suffix)
    {
      id := MakeId(now, suffix);
      IdTimeOfMakeId(now, suffix);
      toasts := Shown(toasts, message, kind, now, suffix);
    }

    /** `removeToast(id)`, the close button. */
    method RemoveToast(id: string)
      modifies this
      ensures toasts == Without(old(toasts), id)
    {
      toasts := Without(toasts, id);
    }

    /** The 5 s timer set by `showToast` firing: the same filter as `removeToast`. */
    method Expire(id: string)
      modifies this
      ensures toasts == Without(old(toasts), id)
    {
      toasts := Without(toasts, id);
    }
  }

  /** `useToast`: the context value inside a provider, an error outside one. */
  datatype Hook = ToastHook(provider: ToastProvider) | HookError(message: string)

  function UseToast(context: Option<ToastProvider>): (r: Hook)
    ensures r.HookError? <==> context.None?
    ensures r.ToastHook? ==> r.provider == context.value
    ensures r.HookError? ==> r.message == "useToast must be used within a ToastProvider"
  {
    match context
    case Some(p) => ToastHook(p)
    case None => HookError("useToast must be used within a ToastProvider")
  }
}
