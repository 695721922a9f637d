/** The rate limiter returned by `throttle(func, limit)`: a closure over one
    flag, `inThrottle`. A call while the flag is falsy runs `func` with the
    call's event, sets the flag and starts a one-shot timer whose callback
    clears it again; a call while the flag is set is dropped.

    Real time is not modelled: the timer's callback firing is an input of
    its own (`Expired`). The state machine is given twice: as a pure
    semantics of input traces (`Run`), about which the lemmas below are
    proved, and as the class `Limiter`, whose methods are tied to `Run`. */
module Throttle {

  /** Something that happens to a limiter: the throttled function is called
      with an event, or the cooldown timer's callback runs. */
  datatype Input<E> = Called(event: E) | Expired

  /** What a limiter has done so far: whether it is in cooldown, and the
      events it has passed to the wrapped handler, oldest first. */
  datatype Outcome<E> = Outcome(cooling: bool, handled: seq<E>)

  /** The flag starts `undefined`, which is falsy: the limiter starts idle. */
  function Initial<E>(): Outcome<E>
  {
    Outcome(false, [])
  }

  /** The effect of a single input. */
  function Step<E>(o: Outcome<E>, i: Input<E>): Outcome<E>
  {
    match i
    case Called(e) => if !o.cooling then Outcome(true, o.handled + [e]) else o
    case Expired => Outcome(false, o.handled)
  }

  /** The effect of a trace of inputs, applied in arrival order. */
  function Run<E>(o: Outcome<E>, t: seq<Input<E>>): Outcome<E>
    decreases |t|
  {
    if |t| == 0 then o else Step(Run(o, t[..|t| - 1]), t[|t| - 1])
  }

  /** The trace has no timer expiry in it: all of it falls in one window. */
  ghost predicate NoExpiry<E>(t: seq<Input<E>>)
  {
    forall k :: 0 <= k < |t| ==> t[k].Called?
  }

  /** The events of the calls in a trace, in arrival order. */
  function Calls<E>(t: seq<Input<E>>): (r: seq<E>)
    decreases |t|
  {
    if |t| == 0 then []
    else
      var last := t[|t| - 1];
      if last.Called? then Calls(t[..|t| - 1]) + [last.event] else Calls(t[..|t| - 1])
  }

  /** The number of timer expiries in a trace. */
  function Expiries<E>(t: seq<Input<E>>): nat
    decreases |t|
  {
    if |t| == 0 then 0
    else (if t[|t| - 1].Expired? then 1 else 0) + Expiries(t[..|t| - 1])
  }

  /** `a` is `b` with some elements dropped and the rest kept in order. */
  ghost predicate IsSubsequence<E>(a: seq<E>, b: seq<E>)
    decreases |b|
  {
    if |a| == 0 then true
    else if |b| == 0 then false
    else (a[|a| - 1] == b[|b| - 1] && IsSubsequence(a[..|a| - 1], b[..|b| - 1]))
         || IsSubsequence(a, b[..|b| - 1])
  }

  /** Running two traces one after the other is running their concatenation. */
  lemma {:induction false} RunAppend<E>(o: Outcome<E>, a: seq<Input<E>>, b: seq<Input<E>>)
    ensures Run(o, a + b) == Run(Run(o, a), b)
    decreases |b|
  {
    if |b| == 0 {
      assert a + b == a;
    } else {
      var b' := b[..|b| - 1];
      assert (a + b)[..|a + b| - 1] == a + b';
      assert (a + b)[|a + b| - 1] == b[|b| - 1];
      RunAppend(o, a, b');
    }
  }

  /** A limiter only ever adds to the record of handled events. */
  lemma {:induction false} HandledOnlyGrows<E>(o: Outcome<E>, t: seq<Input<E>>)
    ensures o.handled <= Run(o, t).handled
    decreases |t|
  {
    if |t| > 0 {
      HandledOnlyGrows(o, t[..|t| - 1]);
    }
  }

  /** Within one window (no expiry), an idle limiter passes exactly the first
      call of a non-empty burst and is then in cooldown; a limiter already in
      cooldown drops every call and stays in cooldown. */
  lemma {:induction false} Burst<E>(o: Outcome<E>, t: seq<Input<E>>)
    requires NoExpiry(t)
    ensures Run(o, t) == if o.cooling || |t| == 0 then o
                         else Outcome(true, o.handled + [t[0].event])
    decreases |t|
  {
    if |t| > 0 {
      var t' := t[..|t| - 1];
      assert t[|t| - 1].Called?;
      assert NoExpiry(t') by {
        forall k | 0 <= k < |t'| ensures t'[k].Called? {
          assert t'[k] == t[k];
        }
      }
      Burst(o, t');
      if |t'| > 0 {
        assert t'[0] == t[0];
      }
    }
  }

  /** The first call a fresh limiter receives always reaches the handler. */
  lemma FirstCallPasses<E>(e: E, t: seq<Input<E>>)
    ensures |Run(Initial(), [Called(e)] + t).handled| > 0
    ensures Run(Initial(), [Called(e)] + t).handled[0] == e
  {
    var first: seq<Input<E>> := [Called(e)];
    RunAppend(Initial(), first, t);
    assert first[..0] == [];
    assert Run(Initial(), first) == Outcome(true, [e]);
    HandledOnlyGrows(Run(Initial(), first), t);
  }

  /** After the timer fires the limiter is idle, and in the window that
      follows it passes the first call and drops the rest. */
  lemma WindowAfterExpiry<E>(o: Outcome<E>, p: seq<Input<E>>, t: seq<Input<E>>)
    requires NoExpiry(t)
    ensures !Run(o, p + [Expired]).cooling
    ensures Run(o, p + [Expired] + t)
            == if |t| == 0 then Outcome(false, Run(o, p).handled)
               else Outcome(true, Run(o, p).handled + [t[0].event])
  {
    var q := p + [Expired];
    assert q[..|q| - 1] == p;
    RunAppend(o, q, t);
    Burst(Run(o, q), t);
  }

  /** Handled events are some of the calls' events, in their arrival order:
      nothing is reordered, replayed or invented. */
  lemma {:induction false} HandledInArrivalOrder<E>(c: bool, t: seq<Input<E>>)
    ensures IsSubsequence(Run(Outcome(c, []), t).handled, Calls(t))
    decreases |t|
  {
    if |t| > 0 {
      var t' := t[..|t| - 1];
      var h := Run(Outcome(c, []), t').handled;
      var calls := Calls(t');
      HandledInArrivalOrder(c, t');
      match t[|t| - 1]
      case Called(e) =>
        assert (calls + [e])[..|calls|] == calls;
        if !Run(Outcome(c, []), t').cooling {
          assert (h + [e])[..|h|] == h;
        } else {
          assert |h| == 0 || IsSubsequence(h, (calls + [e])[..|calls + [e]| - 1]);
        }
      case Expired =>
    }
  }

  /** The number of windows open right now: 1 when the limiter would accept
      a call, 0 in cooldown. */
  function OpenWindow<E>(o: Outcome<E>): nat
  {
    if o.cooling then 0 else 1
  }

  /** Each call that reaches the handler uses up a window: handled calls plus
      the window still open never exceed the windows the limiter started with
      plus those the timer has opened. */
  lemma {:induction false} OneHandlerPerWindow<E>(o: Outcome<E>, t: seq<Input<E>>)
    ensures |Run(o, t).handled| + OpenWindow(Run(o, t)) <= |o.handled| + OpenWindow(o) + Expiries(t)
    decreases |t|
  {
    if |t| > 0 {
      OneHandlerPerWindow(o, t[..|t| - 1]);
    }
  }

  /** From a fresh limiter, the handler runs at most once more than the
      timer has fired. */
  lemma AtMostOncePerWindow<E>(t: seq<Input<E>>)
    ensures |Run(Initial(), t).handled| <= Expiries(t) + 1
  {
    OneHandlerPerWindow(Initial(), t);
  }

  /** The timer only fires while the limiter is cooling down, as in the
      script, where the timer is started by the call that sets the flag. */
  ghost predicate TimerOnlyWhileCooling<E>(o: Outcome<E>, t: seq<Input<E>>)
  {
    forall k :: 0 <= k < |t| && t[k].Expired? ==> Run(o, t[..k]).cooling
  }

  /** When the timer only fires during cooldown, every window opened is used
      by exactly one handled call: the bound of `OneHandlerPerWindow` is
      met with equality. */
  lemma {:induction false} OneHandlerPerClosedWindow<E>(o: Outcome<E>, t: seq<Input<E>>)
    requires TimerOnlyWhileCooling(o, t)
    ensures |Run(o, t).handled| + OpenWindow(Run(o, t)) == |o.handled| + OpenWindow(o) + Expiries(t)
    decreases |t|
  {
    if |t| > 0 {
      var t' := t[..|t| - 1];
      assert TimerOnlyWhileCooling(o, t') by {
        forall k | 0 <= k < |t'| && t'[k].Expired? ensures Run(o, t'[..k]).cooling {
          assert t'[k] == t[k] && t'[..k] == t[..k];
        }
      }
      OneHandlerPerClosedWindow(o, t');
      if t[|t| - 1].Expired? {
        assert Run(o, t[..|t| - 1]).cooling;
      }
    }
  }

  /** From a fresh limiter whose timer only fires during cooldown, the
      handler has run once per expiry, plus once more if a window is in
      cooldown now. */
  lemma ExactlyOncePerWindow<E>(t: seq<Input<E>>)
    requires TimerOnlyWhileCooling(Initial(), t)
    ensures |Run(Initial(), t).handled| == Expiries(t) + (if Run(Initial(), t).cooling then 1 else 0)
  {
    OneHandlerPerClosedWindow(Initial(), t);
  }

  /** Two calls inside one window, the timer firing, then a third call: the
      first and the third reach the handler. */
  lemma TwoWindows<E>(a: E, b: E, c: E)
    ensures Run(Initial(), [Called(a), Called(b), Expired, Called(c)]).handled == [a, c]
  {
    var t := [Called(a), Called(b), Expired, Called(c)];
    assert t[..3][..2][..1][..0] == [];
    assert Run(Initial(), t[..3][..2][..1]) == Outcome(true, [a]);
    assert Run(Initial(), t[..3][..2]) == Outcome(true, [a]);
    assert Run(Initial(), t[..3]) == Outcome(false, [a]);
  }

  /** The closure returned by `throttle`, with its captured flag. The calls
      handed to `func` are recorded in the ghost log `handled`; `inputs` is
      everything that has happened to the limiter so far. */
  class Limiter<E> {
    var inThrottle: bool
    ghost var handled: seq<E>
    ghost var inputs: seq<Input<E>>

    /** The fields agree with the trace semantics of every input so far. */
    ghost predicate Valid()
      reads this
    {
      Run(Initial(), inputs) == Outcome(inThrottle, handled)
    }

    /** `throttle(func, limit)`: the flag is declared but not assigned. */
    constructor ()
      ensures Valid()
      ensures !inThrottle && handled == [] && inputs == []
    {
      inThrottle := false;
      handled := [];
      inputs := [];
    }

    /** The throttled function: returns whether `func` ran with `e`. */
    method Call(e: E) returns (ran: bool)
      requires Valid()
      modifies this
      ensures Valid()
      ensures ran == !old(inThrottle)
      ensures inThrottle
      ensures handled == if ran then old(handled) + [e] else old(handled)
      ensures inputs == old(inputs) + [Called(e)]
    {
      ran := !inThrottle;
      if !inThrottle {
        handled := handled + [e];
        inThrottle := true;
      }
      inputs := inputs + [Called(e)];
      assert inputs[..|inputs| - 1] == old(inputs);
    }

    /** The timer callback: clears the flag. */
    method Expire()
      requires Valid()
      modifies this
      ensures Valid()
      ensures !inThrottle
      ensures handled == old(handled)
      ensures inputs == old(inputs) + [Expired]
    {
      inThrottle := false;
      inputs := inputs + [Expired];
      assert inputs[..|inputs| - 1] == old(inputs);
    }
  }
}
