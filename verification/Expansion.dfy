/**
 A whole run, twice. `Expand` is the recursive reading: an included text is expanded where it
 is included and the expansion of the including text goes on after it. `Run` is the explicit
 stack of texts. They agree, for any number of includes that is allowed for.
 */
module Expansion {
  import opened Texts
  import opened Conditions
  import opened Directives

  /** `budget` is how many more includes are allowed; a file that includes itself needs a bound. */
  datatype Ended = Done(env: Env, budget: nat) | Stopped(why: Stop, out: string) | Exhausted(out: string)

  function Expand(disk: Disk, s: string, c: nat, env: Env, budget: nat): (r: Ended)
    requires c <= |s|
    ensures r.Done? ==> r.budget <= budget
    decreases budget, |s| - c
  {
    if c == |s| then Done(env, budget)
    else
      StepOnward(disk, s, c, env);
      match Step(disk, s, c, env)
      case Halt(why) => Stopped(why, env.out)
      case Go(next, e) => Expand(disk, s, next, e, budget)
      case Enter(next, e, text) =>
        if budget == 0 then Exhausted(e.out)
        else
          match Expand(disk, text, 0, e, budget - 1)
          case Done(e', b) => Expand(disk, s, next, e', b)
          case other => other
  }

  datatype Place = Frame(text: string, cursor: nat)

  type Frame = f: Place | f.cursor <= |f.text| witness Place.Frame("", 0)

  /** Characters not read yet, and one for each text still to be left. */
  function Unread(stack: seq<Frame>): nat
  {
    if stack == [] then 0
    else
      var top: Frame := stack[|stack| - 1];
      Unread(stack[..|stack| - 1]) + (|top.text| - top.cursor) + 1
  }

  lemma UnreadSnoc(stack: seq<Frame>, f: Frame)
    ensures Unread(stack + [f]) == Unread(stack) + (|f.text| - f.cursor) + 1
  {
    assert (stack + [f])[..|stack|] == stack;
  }

  /** One round on the text on top. */
  datatype Next = Next(stack: seq<Frame>, env: Env, budget: nat) | Over(r: Ended)

  /** The texts being read after `f` was done on the one on top. */
  function Resumed(stack: seq<Frame>, f: Effect): seq<Frame>
    requires stack != [] && !f.Halt? && f.next <= |stack[|stack| - 1].text|
  {
    var rest: seq<Frame>, moved: Frame := stack[..|stack| - 1], Frame(stack[|stack| - 1].text, f.next);
    if f.Enter? then rest + [moved, Frame(f.text, 0)] else rest + [moved]
  }

  function Round(disk: Disk, stack: seq<Frame>, env: Env, budget: nat): Next
    requires stack != []
  {
    var top: Frame := stack[|stack| - 1];
    if top.cursor == |top.text| then Next(stack[..|stack| - 1], env, budget)
    else
      StepOnward(disk, top.text, top.cursor, env);
      var f := Step(disk, top.text, top.cursor, env);
      if f.Halt? then Over(Stopped(f.why, env.out))
      else if f.Enter? && budget == 0 then Over(Exhausted(f.env.out))
      else Next(Resumed(stack, f), f.env, if f.Enter? then budget - 1 else budget)
  }

  /** A round that enters no text leaves less to read; one that does uses up an include. */
  lemma RoundDescends(disk: Disk, stack: seq<Frame>, env: Env, budget: nat)
    requires stack != []
    ensures var n := Round(disk, stack, env, budget);
      n.Next? ==>
        (n.budget < budget || (n.budget == budget && Unread(n.stack) < Unread(stack)))
  {
    hide Step;
    var rest, top := stack[..|stack| - 1], stack[|stack| - 1];
    if top.cursor < |top.text| {
      StepOnward(disk, top.text, top.cursor, env);
      var f := Step(disk, top.text, top.cursor, env);
      if f.Go? { UnreadSnoc(rest, Frame(top.text, f.next)); }
    }
  }

  function Run(disk: Disk, stack: seq<Frame>, env: Env, budget: nat): Ended
    decreases budget, Unread(stack)
  {
    if stack == [] then Done(env, budget)
    else
      RoundDescends(disk, stack, env, budget);
      match Round(disk, stack, env, budget)
      case Over(r) => r
      case Next(st, e, b) => Run(disk, st, e, b)
  }

  /** The stack machine expands the text on top, then carries on with the rest of the stack. */
  lemma {:induction false} RunExpands(disk: Disk, stack: seq<Frame>, s: string, c: nat, env: Env, budget: nat)
    requires c <= |s|
    ensures Run(disk, stack + [Frame(s, c)], env, budget) ==
      match Expand(disk, s, c, env, budget)
      case Done(e, b) => Run(disk, stack, e, b)
      case other => other
    decreases budget, |s| - c
  {
    hide Step;
    var st := stack + [Frame(s, c)];
    assert st[..|stack|] == stack;
    if c < |s| {
      StepOnward(disk, s, c, env);
      var f := Step(disk, s, c, env);
      if f.Go? {
        RunExpands(disk, stack, s, f.next, f.env, budget);
      } else if f.Enter? && budget > 0 {
        var below := stack + [Frame(s, f.next)];
        assert below + [Frame(f.text, 0)] == stack + [Frame(s, f.next), Frame(f.text, 0)];
        RunExpands(disk, below, f.text, 0, f.env, budget - 1);
        var r := Expand(disk, f.text, 0, f.env, budget - 1);
        if r.Done? { RunExpands(disk, stack, s, f.next, r.env, r.budget); }
      }
    }
  }

  /** The run of the whole preprocessor on one text. */
  lemma RunIsExpand(disk: Disk, s: string, env: Env, budget: nat)
    ensures Run(disk, [Frame(s, 0)], env, budget) == Expand(disk, s, 0, env, budget)
  {
    hide Expand;
    RunExpands(disk, [], s, 0, env, budget);
    assert [] + [Frame(s, 0)] == [Frame(s, 0)];
  }

  /** More allowed includes never change how a run ends that did not use them up. */
  lemma {:induction false} BudgetSlack(disk: Disk, s: string, c: nat, env: Env, budget: nat, more: nat)
    requires c <= |s| && !Expand(disk, s, c, env, budget).Exhausted?
    ensures var r := Expand(disk, s, c, env, budget);
      Expand(disk, s, c, env, budget + more) == if r.Done? then Done(r.env, r.budget + more) else r
    decreases budget, |s| - c
  {
    hide Step;
    if c < |s| {
      StepOnward(disk, s, c, env);
      var f := Step(disk, s, c, env);
      if f.Go? {
        BudgetSlack(disk, s, f.next, f.env, budget, more);
      } else if f.Enter? {
        BudgetSlack(disk, f.text, 0, f.env, budget - 1, more);
        var r := Expand(disk, f.text, 0, f.env, budget - 1);
        if r.Done? { BudgetSlack(disk, s, f.next, r.env, r.budget, more); }
      }
    }
  }
}
