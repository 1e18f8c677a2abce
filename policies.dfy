/**
 * The policy evaluator of `ActionManager` (the private `testAction`): it turns
 * an action's policy specification and the current context into one boolean
 * decision, and records which policy tests it invoked.
 *
 * A policy is a handle `P`; invoking its `test` against a context is the
 * caller-supplied function `test: (P, C) -> LeafOutcome`. `Promise.allSettled`
 * is modelled as invoking every branch once, in order, then folding the settled
 * results: the invocations really are made in this order, each `test` call being
 * started synchronously by `map` before the first `await`.
 */
module Policies {

  /** What one call `policy.test(context)` does. */
  datatype LeafOutcome =
    | Resolved(value: bool)  // returned `value`, or a promise that fulfilled with it
    | Rejected               // returned a promise that rejected
    | SyncThrow              // threw before returning

  /** An element of a list specification: a bare policy, or a nested array (an OR-group). */
  datatype Elem<P> = Leaf(policy: P) | AnyOf(members: seq<P>)

  /**
   * The union `IPolicy | IPolicy[] | IPolicy[][] | null`, normalised:
   * `null` is `Always`, a single policy is `Single`, an array is `All`.
   */
  datatype PolicySpec<P> = Always | Single(policy: P) | All(elems: seq<Elem<P>>)

  /** One entry of the array `Promise.allSettled` resolves to. */
  datatype Settled = Fulfilled(value: bool) | Failed

  /** A decision together with the policies whose `test` was invoked, in invocation order. */
  datatype Evaluation<P> = Evaluation(decision: bool, log: seq<P>)

  /** How one element of a list specification settled, and what it invoked. */
  datatype ElemRun<P> = ElemRun(settled: Settled, log: seq<P>)

  // ---------------------------------------------------------------------------
  // Reference semantics: the decision as a formula over the leaf outcomes.

  /** The leaf counts for its element exactly when its test resolved to `true`. */
  predicate LeafTrue<C, P>(p: P, ctx: C, test: (P, C) -> LeafOutcome)
  {
    test(p, ctx) == Resolved(true)
  }

  /** No member of the group throws synchronously. */
  predicate GroupIntact<C, P>(members: seq<P>, ctx: C, test: (P, C) -> LeafOutcome)
  {
    forall i :: 0 <= i < |members| ==> test(members[i], ctx) != SyncThrow
  }

  /**
   * When an element counts as `true`: a bare policy when its test resolved to
   * `true` (a failure counts as `false`); a group when some member resolved to
   * `true` and no member threw synchronously (such a throw escapes the group's
   * `map` and rejects the whole element, true siblings notwithstanding).
   */
  predicate Holds<C, P>(e: Elem<P>, ctx: C, test: (P, C) -> LeafOutcome)
  {
    match e
    case Leaf(p) => LeafTrue(p, ctx, test)
    case AnyOf(ms) =>
      GroupIntact(ms, ctx, test) && exists i :: 0 <= i < |ms| && LeafTrue(ms[i], ctx, test)
  }

  /** The decision the specification stands for: a conjunction of elements. */
  predicate Permits<C, P>(spec: PolicySpec<P>, ctx: C, test: (P, C) -> LeafOutcome)
  {
    match spec
    case Always => true
    case Single(p) => LeafTrue(p, ctx, test)
    case All(es) => forall i :: 0 <= i < |es| ==> Holds(es[i], ctx, test)
  }

  /** The policies written in an element, in order. */
  function ElemLeaves<P>(e: Elem<P>): seq<P>
  {
    match e
    case Leaf(p) => [p]
    case AnyOf(ms) => ms
  }

  function ElemsLeaves<P>(es: seq<Elem<P>>): seq<P>
  {
    if es == [] then [] else ElemLeaves(es[0]) + ElemsLeaves(es[1..])
  }

  /** Every policy occurrence written in the specification, in document order. */
  function Leaves<P>(spec: PolicySpec<P>): seq<P>
  {
    match spec
    case Always => []
    case Single(p) => [p]
    case All(es) => ElemsLeaves(es)
  }

  /** No group of the specification has a member that throws synchronously. */
  predicate NoSyncThrowInGroups<C, P>(spec: PolicySpec<P>, ctx: C, test: (P, C) -> LeafOutcome)
  {
    spec.All? ==>
      forall i :: 0 <= i < |spec.elems| && spec.elems[i].AnyOf? ==>
        GroupIntact(spec.elems[i].members, ctx, test)
  }

  // ---------------------------------------------------------------------------
  // The evaluator as the source computes it.

  /**
   * `group.map((p) => p.test(context))`: the members' tests are invoked in order
   * until one throws synchronously, which ends the `map`.
   */
  function InvokeGroup<C, P>(members: seq<P>, ctx: C, test: (P, C) -> LeafOutcome): (outs: seq<LeafOutcome>)
    ensures |outs| <= |members|
    ensures forall i :: 0 <= i < |outs| ==> outs[i] == test(members[i], ctx)
    ensures forall i :: 0 <= i < |outs| - 1 ==> outs[i] != SyncThrow
    ensures |outs| < |members| ==> |outs| > 0 && outs[|outs| - 1] == SyncThrow
  {
    if members == [] then []
    else
      var o := test(members[0], ctx);
      if o == SyncThrow then [o] else [o] + InvokeGroup(members[1..], ctx, test)
  }

  /** How `Promise.allSettled` records a member that returned normally. */
  function Settle(o: LeafOutcome): Settled
  {
    match o
    case Resolved(b) => Fulfilled(b)
    case _ => Failed
  }

  /** `results.some((r) => r.status === 'fulfilled' && r.value === true)` */
  function SomeTrue(rs: seq<Settled>): (r: bool)
    ensures r <==> exists i :: 0 <= i < |rs| && rs[i] == Fulfilled(true)
  {
    if rs == [] then false
    else if rs[0] == Fulfilled(true) then true
    else
      var rest := SomeTrue(rs[1..]);
      assert forall i :: 1 <= i < |rs| ==> rs[i] == rs[1..][i - 1];
      rest
  }

  /** `results.every((r) => r.status === 'fulfilled' && r.value === true)` */
  function EveryTrue(rs: seq<Settled>): (r: bool)
    ensures r <==> forall i :: 0 <= i < |rs| ==> rs[i] == Fulfilled(true)
  {
    if rs == [] then true
    else if rs[0] != Fulfilled(true) then false
    else
      var rest := EveryTrue(rs[1..]);
      assert forall i :: 1 <= i < |rs| ==> rs[i] == rs[1..][i - 1];
      rest
  }

  /**
   * One element of a list specification. A bare policy is awaited inside
   * `try`/`catch`, so any failure becomes `false`; a group is settled member by
   * member and fulfils with whether some member fulfilled with `true`, unless a
   * member threw synchronously, which rejects the element.
   */
  function RunElem<C, P>(e: Elem<P>, ctx: C, test: (P, C) -> LeafOutcome): (r: ElemRun<P>)
    ensures r.settled == Fulfilled(true) <==> Holds(e, ctx, test)
    ensures r.log <= ElemLeaves(e)
    ensures ElemLeaves(e) != [] ==> r.log != []
    ensures e.AnyOf? && GroupIntact(e.members, ctx, test) ==> r.log == ElemLeaves(e)
    ensures e.Leaf? ==> r.log == [e.policy]
  {
    match e
    case Leaf(p) =>
      var v := match test(p, ctx) case Resolved(b) => b case _ => false;
      ElemRun(Fulfilled(v), [p])
    case AnyOf(ms) =>
      var outs := InvokeGroup(ms, ctx, test);
      var invoked := ms[..|outs|];
      if |outs| > 0 && outs[|outs| - 1] == SyncThrow then
        ElemRun(Failed, invoked)
      else
        var settled := seq(|outs|, i requires 0 <= i < |outs| => Settle(outs[i]));
        assert SomeTrue(settled) <==> exists i :: 0 <= i < |ms| && LeafTrue(ms[i], ctx, test) by {
          if SomeTrue(settled) {
            var i :| 0 <= i < |settled| && settled[i] == Fulfilled(true);
            assert LeafTrue(ms[i], ctx, test);
          }
          if i :| 0 <= i < |ms| && LeafTrue(ms[i], ctx, test) {
            assert settled[i] == Fulfilled(true);
          }
        }
        ElemRun(Fulfilled(SomeTrue(settled)), invoked)
  }

  /** `elems.map(async (policy) => ...)`: every element is started, whatever the others yield. */
  function RunElems<C, P>(es: seq<Elem<P>>, ctx: C, test: (P, C) -> LeafOutcome): seq<ElemRun<P>>
  {
    seq(|es|, i requires 0 <= i < |es| => RunElem(es[i], ctx, test))
  }

  /**
   * Each element of a list settles with `true` exactly when it holds, and
   * invokes all of its policies unless it is a group with a synchronous throw:
   * a throwing group does not cut short the elements after it.
   */
  lemma RunElemsAgree<C, P>(es: seq<Elem<P>>, ctx: C, test: (P, C) -> LeafOutcome)
    ensures |RunElems(es, ctx, test)| == |es|
    ensures forall i :: 0 <= i < |es| ==>
      (RunElems(es, ctx, test)[i].settled == Fulfilled(true) <==> Holds(es[i], ctx, test))
    ensures forall i :: 0 <= i < |es| && (es[i].Leaf? || GroupIntact(es[i].members, ctx, test)) ==>
      RunElems(es, ctx, test)[i].log == ElemLeaves(es[i])
  {
    var runs := RunElems(es, ctx, test);
    forall i | 0 <= i < |es|
      ensures runs[i].settled == Fulfilled(true) <==> Holds(es[i], ctx, test)
      ensures es[i].Leaf? || GroupIntact(es[i].members, ctx, test) ==> runs[i].log == ElemLeaves(es[i])
    {
      assert runs[i] == RunElem(es[i], ctx, test);
    }
  }

  function Settlements<P>(runs: seq<ElemRun<P>>): seq<Settled>
  {
    seq(|runs|, i requires 0 <= i < |runs| => runs[i].settled)
  }

  /** The invocations of all elements, element after element. */
  function Logs<P>(runs: seq<ElemRun<P>>): seq<P>
  {
    if runs == [] then [] else runs[0].log + Logs(runs[1..])
  }

  /**
   * `testAction`: `null` permits without invoking anything; a single policy
   * decides by its own test, a failure deciding `false`; a list decides `true`
   * exactly when every element settled with `true`, after all were evaluated.
   */
  function TestAction<C, P>(spec: PolicySpec<P>, ctx: C, test: (P, C) -> LeafOutcome): (r: Evaluation<P>)
    ensures r.decision <==> Permits(spec, ctx, test)
    ensures spec.Always? ==> r.log == []
    ensures spec.Single? ==> r.log == [spec.policy]
  {
    match spec
    case Always => Evaluation(true, [])
    case Single(p) =>
      var v := match test(p, ctx) case Resolved(b) => b case _ => false;
      Evaluation(v, [p])
    case All(es) =>
      var runs := RunElems(es, ctx, test);
      RunElemsAgree(es, ctx, test);
      var rs := Settlements(runs);
      assert |rs| == |es| && forall i :: 0 <= i < |rs| ==> rs[i] == runs[i].settled;
      Evaluation(EveryTrue(rs), Logs(runs))
  }

  // ---------------------------------------------------------------------------
  // Properties of the evaluator.

  /**
   * Without synchronous throws inside groups, a decision invokes every policy
   * occurrence of the specification exactly once, in document order, however
   * the earlier elements came out (no short circuit).
   */
  lemma {:induction false} EveryLeafInvokedOnce<C, P>(spec: PolicySpec<P>, ctx: C, test: (P, C) -> LeafOutcome)
    requires NoSyncThrowInGroups(spec, ctx, test)
    ensures TestAction(spec, ctx, test).log == Leaves(spec)
  {
    if spec.All? {
      ElemsLogged(spec.elems, ctx, test);
    }
  }

  lemma {:induction false} ElemsLogged<C, P>(es: seq<Elem<P>>, ctx: C, test: (P, C) -> LeafOutcome)
    requires forall i :: 0 <= i < |es| && es[i].AnyOf? ==> GroupIntact(es[i].members, ctx, test)
    ensures Logs(RunElems(es, ctx, test)) == ElemsLeaves(es)
  {
    if es != [] {
      var runs := RunElems(es, ctx, test);
      var rest := RunElems(es[1..], ctx, test);
      assert runs[1..] == rest by {
        assert |runs[1..]| == |rest|;
        forall i | 0 <= i < |rest| ensures runs[1..][i] == rest[i] {
          assert es[1..][i] == es[i + 1];
        }
      }
      assert runs[0] == RunElem(es[0], ctx, test);
      if es[0].AnyOf? {
        assert GroupIntact(es[0].members, ctx, test);
      }
      assert forall i :: 0 <= i < |es| - 1 ==> es[1..][i] == es[i + 1];
      ElemsLogged(es[1..], ctx, test);
    }
  }

  /** An empty list permits; an empty group never holds. */
  lemma EmptyListPermitsEmptyGroupDenies<C, P>(ctx: C, test: (P, C) -> LeafOutcome)
    ensures TestAction(All([]), ctx, test).decision
    ensures !TestAction(All([AnyOf([])]), ctx, test).decision
  {
    assert !Holds(AnyOf([]), ctx, test);
  }

  /**
   * A group with a member that resolves to `true` holds exactly when no member
   * throws synchronously: asynchronous rejections of siblings are isolated by
   * `Promise.allSettled`, a synchronous throw is not.
   */
  lemma GroupWithTrueMember<C, P>(ms: seq<P>, ctx: C, test: (P, C) -> LeafOutcome, k: nat)
    requires k < |ms| && LeafTrue(ms[k], ctx, test)
    ensures TestAction(All([AnyOf(ms)]), ctx, test).decision <==> GroupIntact(ms, ctx, test)
  {
    assert [AnyOf(ms)][0] == AnyOf(ms);
  }

  /**
   * As written, a member that throws synchronously discards a `true` already
   * obtained from an earlier member of the same group: the element rejects and
   * the decision is `false`.
   */
  lemma SyncThrowMasksTrueMember<C, P>(p: P, q: P, ctx: C, test: (P, C) -> LeafOutcome)
    requires test(p, ctx) == Resolved(true) && test(q, ctx) == SyncThrow
    ensures RunElem(AnyOf([p, q]), ctx, test).settled == Failed
    ensures RunElem(AnyOf([p, q]), ctx, test).log == [p, q]
    ensures !TestAction(All([AnyOf([p, q])]), ctx, test).decision
  {
    assert [p, q][1..] == [q];
    assert InvokeGroup([q], ctx, test) == [SyncThrow];
    assert InvokeGroup([p, q], ctx, test) == [Resolved(true), SyncThrow];
    assert [p, q][..2] == [p, q];
    assert [AnyOf([p, q])][0] == AnyOf([p, q]);
  }

  /**
   * A group settled with every member isolated (`group.map(async (p) => p.test(context))`):
   * a throw, synchronous or not, only fails its own member, and the group is
   * `true` exactly when some member resolved to `true`.
   */
  function RunGroupIsolated<C, P>(ms: seq<P>, ctx: C, test: (P, C) -> LeafOutcome): (r: Settled)
    ensures r == Fulfilled(true) <==> exists i :: 0 <= i < |ms| && LeafTrue(ms[i], ctx, test)
  {
    var settled := seq(|ms|, i requires 0 <= i < |ms| => Settle(test(ms[i], ctx)));
    assert SomeTrue(settled) <==> exists i :: 0 <= i < |ms| && LeafTrue(ms[i], ctx, test) by {
      if SomeTrue(settled) {
        var i :| 0 <= i < |settled| && settled[i] == Fulfilled(true);
        assert LeafTrue(ms[i], ctx, test);
      }
      if i :| 0 <= i < |ms| && LeafTrue(ms[i], ctx, test) {
        assert settled[i] == Fulfilled(true);
      }
    }
    Fulfilled(SomeTrue(settled))
  }

  /**
   * On the policies in `leaves`, `weak` behaves like `strong` except that some
   * tests which resolved in `strong` fail (reject or throw) in `weak`.
   */
  ghost predicate OnlyMoreFailures<C, P>(leaves: seq<P>, weak: (P, C) -> LeafOutcome, strong: (P, C) -> LeafOutcome, ctx: C)
  {
    forall p :: p in leaves ==>
      weak(p, ctx) == strong(p, ctx) || (strong(p, ctx).Resolved? && !weak(p, ctx).Resolved?)
  }

  lemma {:induction false} ElemLeavesIncluded<P>(es: seq<Elem<P>>, i: nat)
    requires i < |es|
    ensures forall p :: p in ElemLeaves(es[i]) ==> p in ElemsLeaves(es)
  {
    if i > 0 {
      ElemLeavesIncluded(es[1..], i - 1);
      assert es[1..][i - 1] == es[i];
    }
  }

  /** A failing policy can only turn a decision from `true` to `false` (deny on error). */
  lemma FailuresOnlyDeny<C, P>(spec: PolicySpec<P>, ctx: C, weak: (P, C) -> LeafOutcome, strong: (P, C) -> LeafOutcome)
    requires OnlyMoreFailures(Leaves(spec), weak, strong, ctx)
    ensures TestAction(spec, ctx, weak).decision ==> TestAction(spec, ctx, strong).decision
  {
    if spec.Single? {
      assert spec.policy in Leaves(spec);
    } else if spec.All? && Permits(spec, ctx, weak) {
      forall i | 0 <= i < |spec.elems|
        ensures Holds(spec.elems[i], ctx, strong)
      {
        var e := spec.elems[i];
        assert Holds(e, ctx, weak);
        ElemLeavesIncluded(spec.elems, i);
        if e.AnyOf? {
          var j :| 0 <= j < |e.members| && LeafTrue(e.members[j], ctx, weak);
          assert e.members[j] in ElemLeaves(e);
          forall k | 0 <= k < |e.members| ensures strong(e.members[k], ctx) != SyncThrow {
            assert e.members[k] in ElemLeaves(e);
            assert weak(e.members[k], ctx) != SyncThrow;
          }
        } else {
          assert e.policy in ElemLeaves(e);
        }
      }
    }
  }
}
