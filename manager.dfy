/**
 * `ActionManager`: an ordered registry of actions and a replaceable context,
 * with lookup by id (first match in insertion order), the authorisation query
 * `canExecute`, gated invocation `execute`, and `getActions`.
 */
module Manager {
  import opened Wrappers
  import opened Policies

  /** How an executor's promise settles: fulfilled with a result, or rejected with an error message. */
  datatype Reply<R> = Done(value: R) | Fail(message: string)

  /**
   * An action: its id, optional display name, policy specification and
   * executor. The executor is optional because `execute` checks for it.
   */
  datatype Action<P, !Par, R> = Action(
    id: string,
    name: Option<string>,
    policies: PolicySpec<P>,
    exec: Option<Par -> Reply<R>>)

  /** What one `execute` call did: its reply, the policy tests it invoked and the arguments of every executor call. */
  datatype Execution<P, Par, R> = Execution(reply: Reply<R>, log: seq<P>, calls: seq<Par>)

  /** What one `getActions` call returned, and the policy tests it invoked. */
  datatype Listing<P, !Par, R> = Listing(listed: seq<Action<P, Par, R>>, log: seq<P>)

  /** `actions.find((a) => a.id === id)`, as an index: the first action with that id. */
  function Find<P, Par, R>(actions: seq<Action<P, Par, R>>, id: string): (r: Option<nat>)
    ensures r.Some? ==> r.value < |actions| && actions[r.value].id == id
    ensures r.Some? ==> forall j :: 0 <= j < r.value ==> actions[j].id != id
    ensures r.None? <==> forall j :: 0 <= j < |actions| ==> actions[j].id != id
  {
    if actions == [] then None
    else if actions[0].id == id then Some(0)
    else
      match Find(actions[1..], id)
      case None => None
      case Some(k) => Some(k + 1)
  }

  /**
   * Appending never changes which action an id already resolves to: a
   * duplicate id is accepted but stays shadowed by the earlier action.
   */
  lemma {:induction false} FindAfterAppend<P, Par, R>(actions: seq<Action<P, Par, R>>, a: Action<P, Par, R>, id: string)
    ensures Find(actions + [a], id) ==
      if Find(actions, id).Some? then Find(actions, id)
      else if a.id == id then Some(|actions|)
      else None
  {
    if actions != [] {
      assert (actions + [a])[1..] == actions[1..] + [a];
      FindAfterAppend(actions[1..], a, id);
    }
  }

  /** `actions[i]` is the first action registered under `id`. */
  predicate FirstWithId<P, Par, R>(actions: seq<Action<P, Par, R>>, id: string, i: nat)
  {
    i < |actions| && actions[i].id == id && forall j :: 0 <= j < i ==> actions[j].id != id
  }

  /** Every action's policy tests, action after action: what `getActions` invokes. */
  function RegistryLog<C, P, Par, R>(actions: seq<Action<P, Par, R>>, ctx: C, test: (P, C) -> LeafOutcome): seq<P>
  {
    if actions == [] then []
    else TestAction(actions[0].policies, ctx, test).log + RegistryLog(actions[1..], ctx, test)
  }

  /** `xs` is `ys` with some elements left out, the others kept in order. */
  ghost predicate SubsequenceOf<T>(xs: seq<T>, ys: seq<T>)
    decreases |ys|
  {
    xs == [] ||
    (ys != [] &&
     ((xs[0] == ys[0] && SubsequenceOf(xs[1..], ys[1..])) || SubsequenceOf(xs, ys[1..])))
  }

  /**
   * The actions whose policies permit under `ctx`, in registry order: what
   * `getActions` is meant to return (see `ActionManager.GetActions`).
   */
  function PermittedActions<C, P, Par, R>(actions: seq<Action<P, Par, R>>, ctx: C, test: (P, C) -> LeafOutcome)
    : (r: seq<Action<P, Par, R>>)
    ensures SubsequenceOf(r, actions) && multiset(r) <= multiset(actions)
    ensures forall k :: 0 <= k < |r| ==> Permits(r[k].policies, ctx, test)
    ensures forall x | x in actions && Permits(x.policies, ctx, test) :: multiset(r)[x] == multiset(actions)[x]
  {
    if actions == [] then []
    else
      var rest := PermittedActions(actions[1..], ctx, test);
      assert actions == [actions[0]] + actions[1..];
      if TestAction(actions[0].policies, ctx, test).decision then [actions[0]] + rest
      else rest
  }

  class ActionManager<C, P, Par, R> {
    var actions: seq<Action<P, Par, R>>
    var context: C

    constructor (context: C)
      ensures this.context == context && actions == []
    {
      this.context := context;
      actions := [];
    }

    method SetContext(context: C)
      modifies this
      ensures this.context == context && actions == old(actions)
    {
      this.context := context;
    }

    method GetContext() returns (c: C)
      ensures c == context
    {
      c := context;
    }

    /** Replaces the registry wholesale (by value: the caller's array is not shared). */
    method SetActions(actions: seq<Action<P, Par, R>>)
      modifies this
      ensures this.actions == actions && context == old(context)
    {
      this.actions := actions;
    }

    /** Appends, even when an action with the same id is already registered. */
    method AddAction(action: Action<P, Par, R>)
      modifies this
      ensures actions == old(actions) + [action] && context == old(context)
    {
      actions := actions + [action];
    }

    /**
     * `getActions` as written: `filter` is handed the promise `testAction`
     * returns, and a promise is an object, hence truthy, so every action is
     * kept; every action's policies are still evaluated.
     */
    function GetActions(test: (P, C) -> LeafOutcome): (r: Listing<P, Par, R>)
      reads this
      ensures |r.listed| == |actions|
      ensures forall i :: 0 <= i < |actions| ==> r.listed[i] == actions[i]
      ensures r.log == RegistryLog(actions, context, test)
    {
      Listing(actions, RegistryLog(actions, context, test))
    }

    /**
     * `canExecute`: `false` without evaluating anything when no action has the
     * id; otherwise the decision for the first such action, under the context
     * bound now.
     */
    function CanExecute(id: string, test: (P, C) -> LeafOutcome): (r: Evaluation<P>)
      reads this
      ensures r.decision <==>
        exists i: nat :: FirstWithId(actions, id, i) && Permits(actions[i].policies, context, test)
      ensures Find(actions, id).None? ==> r.log == []
      ensures Find(actions, id).Some? ==> r.log == TestAction(actions[Find(actions, id).value].policies, context, test).log
    {
      match Find(actions, id)
      case None => Evaluation(false, [])
      case Some(i) =>
        assert FirstWithId(actions, id, i);
        assert forall k: nat :: FirstWithId(actions, id, k) ==> k == i;
        TestAction(actions[i].policies, context, test)
    }

    /**
     * `execute`: an unknown id fails before any policy runs; a denial fails
     * without calling the executor; an allowed action without executor fails;
     * otherwise the executor is called once with `params` and its reply is
     * passed through unchanged.
     */
    method Execute(id: string, params: Par, test: (P, C) -> LeafOutcome) returns (x: Execution<P, Par, R>)
      ensures Find(actions, id).None? ==> x == Execution(Fail("Action " + id + " not found"), [], [])
      ensures Find(actions, id).Some? ==>
        var a := actions[Find(actions, id).value];
        x.log == TestAction(a.policies, context, test).log &&
        (!Permits(a.policies, context, test) ==>
           x.reply == Fail("Action " + id + " not allowed") && x.calls == []) &&
        (Permits(a.policies, context, test) && a.exec.None? ==>
           x.reply == Fail("Action " + id + " has no exec method") && x.calls == []) &&
        (Permits(a.policies, context, test) && a.exec.Some? ==>
           x.reply == a.exec.value(params) && x.calls == [params])
    {
      var found := Find(actions, id);
      if found.None? {
        return Execution(Fail("Action " + id + " not found"), [], []);
      }
      var action := actions[found.value];
      var allowed := TestAction(action.policies, context, test);
      if !allowed.decision {
        return Execution(Fail("Action " + id + " not allowed"), allowed.log, []);
      }
      if action.exec.None? {
        return Execution(Fail("Action " + id + " has no exec method"), allowed.log, []);
      }
      x := Execution(action.exec.value(params), allowed.log, [params]);
    }
  }

  /**
   * `getActions` lists an action its policies deny, which the intended filter
   * leaves out.
   */
  lemma GetActionsListsDenied<C, P, Par, R>(m: ActionManager<C, P, Par, R>, test: (P, C) -> LeafOutcome, i: nat)
    requires i < |m.actions| && !Permits(m.actions[i].policies, m.context, test)
    ensures m.actions[i] in m.GetActions(test).listed
    ensures m.actions[i] !in PermittedActions(m.actions, m.context, test)
  {
    assert m.GetActions(test).listed[i] == m.actions[i];
  }

  /** Every policy occurrence of every action, action after action, in document order. */
  function RegistryLeaves<P, Par, R>(actions: seq<Action<P, Par, R>>): seq<P>
  {
    if actions == [] then [] else Leaves(actions[0].policies) + RegistryLeaves(actions[1..])
  }

  /**
   * Without synchronous throws inside groups, listing the actions invokes
   * every policy occurrence of every action exactly once, in registry order
   * and then document order.
   */
  lemma {:induction false} RegistryLogAllLeaves<C, P, Par, R>(actions: seq<Action<P, Par, R>>, ctx: C,
                                                            test: (P, C) -> LeafOutcome)
    requires forall i :: 0 <= i < |actions| ==> NoSyncThrowInGroups(actions[i].policies, ctx, test)
    ensures RegistryLog(actions, ctx, test) == RegistryLeaves(actions)
  {
    if actions != [] {
      EveryLeafInvokedOnce(actions[0].policies, ctx, test);
      assert forall i :: 0 <= i < |actions| - 1 ==> actions[1..][i] == actions[i + 1];
      RegistryLogAllLeaves(actions[1..], ctx, test);
    }
  }

  /** The two policies of the manager's unit tests, over a context that is the user's role. */
  datatype RolePolicy = IsAdmin | IsNotAdmin

  function RoleTest(p: RolePolicy, role: string): LeafOutcome
  {
    Resolved(if p == IsAdmin then role == "admin" else role != "admin")
  }

  function MockAction(policy: RolePolicy): Action<RolePolicy, string, string>
  {
    Action("test-action", Some("Test Action"), All([Leaf(policy)]), Some((someValue: string) => Done("Executed with " + someValue)))
  }

  /** Unit test: an added action is listed, and with an admin context it executes. */
  method ScenarioAllowed() returns (listed: seq<Action<RolePolicy, string, string>>, x: Execution<RolePolicy, string, string>)
    ensures listed == [MockAction(IsAdmin)]
    ensures x.reply == Done("Executed with test") && x.calls == ["test"]
  {
    var m := new ActionManager<string, RolePolicy, string, string>("admin");
    m.AddAction(MockAction(IsAdmin));
    listed := m.GetActions(RoleTest).listed;
    assert Holds(Leaf(IsAdmin), "admin", RoleTest);
    assert Find(m.actions, "test-action") == Some(0);
    x := m.Execute("test-action", "test", RoleTest);
    assert "Executed with " + "test" == "Executed with test";
  }

  /** Unit test: with an admin context the non-admin policy denies, and the executor is not called. */
  method ScenarioDenied() returns (x: Execution<RolePolicy, string, string>)
    ensures x.reply == Fail("Action test-action not allowed") && x.calls == []
  {
    var m := new ActionManager<string, RolePolicy, string, string>("admin");
    m.AddAction(MockAction(IsNotAdmin));
    assert !Holds(Leaf(IsNotAdmin), "admin", RoleTest);
    x := m.Execute("test-action", "test", RoleTest);
    NotAllowedMessage("test-action", "Action test-action not allowed");
  }

  /** Proof step of `ScenarioDenied`: the message built for the denied id, spelled out. */
  lemma NotAllowedMessage(id: string, message: string)
    requires id == "test-action" && message == "Action test-action not allowed"
    ensures "Action " + id + " not allowed" == message
  {
  }

  /** Unit test: an unknown id is not executable and fails before any policy runs. */
  method ScenarioUnknown() returns (allowed: bool, x: Execution<RolePolicy, string, string>)
    ensures !allowed
    ensures x == Execution(Fail("Action non-existent-action not found"), [], [])
  {
    var m := new ActionManager<string, RolePolicy, string, string>("admin");
    allowed := m.CanExecute("non-existent-action", RoleTest).decision;
    x := m.Execute("non-existent-action", "test", RoleTest);
    NotFoundMessage("non-existent-action", "Action non-existent-action not found");
  }

  /** Proof step of `ScenarioUnknown`: the message built for the unknown id, spelled out. */
  lemma NotFoundMessage(id: string, message: string)
    requires id == "non-existent-action" && message == "Action non-existent-action not found"
    ensures "Action " + id + " not found" == message
  {
  }

  /** Unit test: with an admin context the admin-only action can be executed. */
  method ScenarioCanExecute() returns (allowed: bool)
    ensures allowed
  {
    var m := new ActionManager<string, RolePolicy, string, string>("admin");
    m.AddAction(MockAction(IsAdmin));
    assert Holds(Leaf(IsAdmin), "admin", RoleTest);
    assert FirstWithId(m.actions, "test-action", 0);
    allowed := m.CanExecute("test-action", RoleTest).decision;
  }

  /** Clearing the registry makes a previously registered id unresolvable. */
  method ScenarioCleared() returns (allowed: bool)
    ensures !allowed
  {
    var m := new ActionManager<string, RolePolicy, string, string>("admin");
    m.AddAction(MockAction(IsAdmin));
    m.SetActions([]);
    allowed := m.CanExecute("test-action", RoleTest).decision;
  }
}
