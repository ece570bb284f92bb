/**
 * The event-callback registry: a list of callbacks, a filter by callback type,
 * and the two dispatch loops, a broadcast (`executeCallback`) and an AND over
 * the results that calls every callback before combining (`checkCallback`).
 */
module Callbacks {
  import opened Wrappers

  /** `EventCallback_t`, by its ordinal in the enumeration. */
  type EventCallbackType = nat

  /**
   * An `EventCallback`: its type, whether its script loaded, and the name it was
   * registered under. What its member functions do is not modelled: a call's
   * result is given by an uninterpreted function of the callback.
   */
  datatype EventCallback = EventCallback(callbackType: EventCallbackType, loaded: bool, name: string)

  /** A `shared_ptr<EventCallback>`; None is the null pointer. */
  type CallbackPtr = Option<EventCallback>

  /** The dispatch loops call a callback only when it is non-null and loaded. */
  predicate Runnable(callback: CallbackPtr)
  {
    callback.Some? && callback.value.loaded
  }

  /** The non-null callbacks of one type, in list order. */
  function OfType(callbacks: seq<CallbackPtr>, t: EventCallbackType): (r: seq<CallbackPtr>)
    ensures forall i :: 0 <= i < |r| ==> r[i].Some? && r[i].value.callbackType == t
    ensures forall c :: Some(c) in r <==> Some(c) in callbacks && c.callbackType == t
    ensures |r| <= |callbacks|
  {
    if |callbacks| == 0 then []
    else
      var init, last := callbacks[..|callbacks| - 1], callbacks[|callbacks| - 1];
      assert callbacks == init + [last];
      OfType(init, t) + (if last.Some? && last.value.callbackType == t then [last] else [])
  }

  /** Filtering keeps the order of the list: it distributes over concatenation. */
  lemma {:induction false} OfTypeAppend(a: seq<CallbackPtr>, b: seq<CallbackPtr>, t: EventCallbackType)
    ensures OfType(a + b, t) == OfType(a, t) + OfType(b, t)
    decreases |b|
  {
    if |b| == 0 {
      assert a + b == a;
    } else {
      var init := b[..|b| - 1];
      assert (a + b)[..|a + b| - 1] == a + init;
      OfTypeAppend(a, init, t);
    }
  }

  /** The callbacks a dispatch loop over `selection` calls, in the order it calls them. */
  function Invoked(selection: seq<CallbackPtr>): (r: seq<EventCallback>)
    ensures forall c :: c in r <==> Some(c) in selection && c.loaded
    ensures |r| <= |selection|
  {
    if |selection| == 0 then []
    else
      var init, last := selection[..|selection| - 1], selection[|selection| - 1];
      assert selection == init + [last];
      Invoked(init) + (if Runnable(last) then [last.value] else [])
  }

  /** Calls on consecutive parts of a list are the calls on each part, in turn. */
  lemma {:induction false} InvokedAppend(a: seq<CallbackPtr>, b: seq<CallbackPtr>)
    ensures Invoked(a + b) == Invoked(a) + Invoked(b)
    decreases |b|
  {
    if |b| == 0 {
      assert a + b == a;
    } else {
      var init := b[..|b| - 1];
      assert (a + b)[..|a + b| - 1] == a + init;
      assert (a + b)[|a + b| - 1] == b[|b| - 1];
      InvokedAppend(a, init);
    }
  }

  /** A null or unloaded callback anywhere in the list changes no call. */
  lemma SkippedChangesNothing(a: seq<CallbackPtr>, callback: CallbackPtr, b: seq<CallbackPtr>)
    requires !Runnable(callback)
    ensures Invoked(a + [callback] + b) == Invoked(a + b)
  {
    assert [callback][..0] == [];
    assert Invoked([callback]) == [];
    InvokedAppend(a, [callback]);
    assert Invoked(a + [callback]) == Invoked(a);
    InvokedAppend(a + [callback], b);
    InvokedAppend(a, b);
  }

  /** One more loop iteration calls the next entry exactly when it is runnable. */
  lemma InvokedStep(selection: seq<CallbackPtr>, i: nat)
    requires i < |selection|
    ensures Invoked(selection[..i + 1]) ==
              Invoked(selection[..i]) + (if Runnable(selection[i]) then [selection[i].value] else [])
  {
    assert selection[..i + 1][..i] == selection[..i];
  }

  /** The AND of the results of calling `member` on `calls`, in order, starting from true. */
  function AllSucceeded(calls: seq<EventCallback>, member: EventCallback -> bool): bool
  {
    if |calls| == 0 then true
    else AllSucceeded(calls[..|calls| - 1], member) && member(calls[|calls| - 1])
  }

  /** One more call ANDs its result into the results of the earlier calls. */
  lemma AllSucceededStep(calls: seq<EventCallback>, callback: EventCallback, member: EventCallback -> bool)
    ensures AllSucceeded(calls + [callback], member) == (AllSucceeded(calls, member) && member(callback))
  {
    assert (calls + [callback])[..|calls|] == calls;
  }

  /** The AND is true exactly when every call returned true; true when there was no call. */
  lemma {:induction false} AllSucceededIff(calls: seq<EventCallback>, member: EventCallback -> bool)
    ensures AllSucceeded(calls, member) <==> forall i :: 0 <= i < |calls| ==> member(calls[i])
  {
    if |calls| > 0 {
      var init := calls[..|calls| - 1];
      AllSucceededIff(init, member);
      assert forall i :: 0 <= i < |init| ==> init[i] == calls[i];
    }
  }

  /** A list with no non-null loaded callback calls nothing, so the AND is true. */
  lemma {:induction false} VacuousSuccess(selection: seq<CallbackPtr>, member: EventCallback -> bool)
    requires forall i :: 0 <= i < |selection| ==> !Runnable(selection[i])
    ensures Invoked(selection) == []
    ensures AllSucceeded(Invoked(selection), member)
  {
    if |selection| > 0 {
      var init := selection[..|selection| - 1];
      assert forall i :: 0 <= i < |init| ==> init[i] == selection[i];
      VacuousSuccess(init, member);
    }
  }

  /** `EventsCallbacks`: the registered callbacks, in registration order. */
  class EventsCallbacks {
    var callbacks: seq<CallbackPtr>

    constructor ()
      ensures GetCallbacks() == []
    {
      callbacks := [];
    }

    function GetCallbacks(): seq<CallbackPtr>
      reads this
    {
      callbacks
    }

    /** Registers one more callback after the existing ones. */
    method AddCallback(callback: CallbackPtr)
      modifies this
      ensures GetCallbacks() == old(GetCallbacks()) + [callback]
      ensures callback in GetCallbacks()
    {
      callbacks := callbacks + [callback];
    }

    /** The registered callbacks of type `t`, in registration order. */
    function GetCallbacksByType(t: EventCallbackType): (r: seq<CallbackPtr>)
      reads this
      ensures forall i :: 0 <= i < |r| ==> r[i].Some? && r[i].value.callbackType == t
      ensures forall c :: Some(c) in r <==> Some(c) in callbacks && c.callbackType == t
    {
      OfType(callbacks, t)
    }

    /** Drops every registered callback. */
    method Clear()
      modifies this
      ensures GetCallbacks() == []
    {
      callbacks := [];
    }

    /**
     * Calls the member on every non-null loaded callback of `eventType`, in
     * registration order; `invoked` lists the callbacks called.
     */
    method ExecuteCallback(eventType: EventCallbackType) returns (invoked: seq<EventCallback>)
      ensures invoked == Invoked(GetCallbacksByType(eventType))
      ensures forall c :: c in invoked <==> Some(c) in GetCallbacks() && c.callbackType == eventType && c.loaded
    {
      var selection := GetCallbacksByType(eventType);
      invoked := [];
      for i := 0 to |selection|
        invariant invoked == Invoked(selection[..i])
      {
        InvokedStep(selection, i);
        var callback := selection[i];
        if callback.Some? && callback.value.loaded {
          invoked := invoked + [callback.value];
        }
      }
      assert selection[..|selection|] == selection;
    }

    /**
     * Calls `member` on every non-null loaded callback of `eventType`, in
     * registration order, even after one returned false, and returns the AND of
     * the results (true when none was called).
     */
    method CheckCallback(eventType: EventCallbackType, member: EventCallback -> bool)
      returns (allCallbacksSucceeded: bool, invoked: seq<EventCallback>)
      ensures invoked == Invoked(GetCallbacksByType(eventType))
      ensures allCallbacksSucceeded <==> forall i :: 0 <= i < |invoked| ==> member(invoked[i])
    {
      var selection := GetCallbacksByType(eventType);
      allCallbacksSucceeded := true;
      invoked := [];
      for i := 0 to |selection|
        invariant invoked == Invoked(selection[..i])
        invariant allCallbacksSucceeded == AllSucceeded(invoked, member)
      {
        InvokedStep(selection, i);
        var callback := selection[i];
        if callback.Some? && callback.value.loaded {
          var callbackResult := member(callback.value);
          AllSucceededStep(invoked, callback.value, member);
          invoked := invoked + [callback.value];
          allCallbacksSucceeded := allCallbacksSucceeded && callbackResult;
        }
      }
      assert selection[..|selection|] == selection;
      AllSucceededIff(invoked, member);
    }
  }
}
