/**
 When following includes ends. `Visit` follows them without counting: it enters a guarded file
 once, an unguarded one every time, and gives up when an unguarded file is met inside itself
 with no guarded file in between. A run ends exactly when `Visit` does not give up, and that is
 so exactly when no circle of unguarded files can be reached.
 */
module Includes {
  import opened Tokens
  import opened Texts
  import opened Conditions
  import opened Directives
  import opened Expansion
  import opened Substitution
  import opened Branches
  import opened Selection
  import opened Guards

  // ---------- visiting ----------

  predicate IsBare(lib: Library, p: string) { p in lib && lib[p].guard.None? }

  function Bares(lib: Library): set<string> { set p | p in lib && lib[p].guard.None? }

  /** The files whose guards are not defined yet. */
  function Fresh(lib: Library, macros: Macros): set<string> {
    set p | p in lib && lib[p].guard.Some? && lib[p].guard.value !in macros
  }

  lemma FreshShrinks(lib: Library, macros: Macros, more: Macros)
    requires macros.Keys <= more.Keys
    ensures |Fresh(lib, more)| <= |Fresh(lib, macros)|
    ensures forall p :: p in Fresh(lib, macros) && p !in Fresh(lib, more) ==> |Fresh(lib, more)| < |Fresh(lib, macros)|
  {
    var a, b := Fresh(lib, more), Fresh(lib, macros);
    SubsetSize(a, b);
    forall p | p in b && p !in a ensures |a| < |b| { SubsetSize(a, b - {p}); }
  }

  lemma EnteredFresh(lib: Library, p: string, env: Env)
    requires p in lib && lib[p].guard.Some? && lib[p].guard.value !in env.macros
    ensures |Fresh(lib, Entered(env, lib[p].guard.value).macros)| < |Fresh(lib, env.macros)|
  {
    var after := Entered(env, lib[p].guard.value).macros;
    FreshShrinks(lib, env.macros, after);
    assert p in Fresh(lib, env.macros) && p !in Fresh(lib, after);
  }

  lemma BareLeft(lib: Library, p: string, active: set<string>)
    requires IsBare(lib, p) && p !in active
    ensures |Bares(lib) - (active + {p})| < |Bares(lib) - active|
  {
    assert Bares(lib) - (active + {p}) == (Bares(lib) - active) - {p};
    assert p in Bares(lib) - active;
  }

  /** State, number of includes read on the way, guards defined in order, and files entered. */
  datatype Visited = Visited(env: Env, includes: nat, guards: seq<string>, files: set<string>)

  function Then(a: Visited, b: Visited): Visited {
    Visited(b.env, a.includes + b.includes, a.guards + b.guards, a.files + b.files)
  }

  /** `active` are the unguarded files being visited, since the last guarded one. */
  function Visit(lib: Library, items: seq<Item>, env: Env, active: set<string>): (v: Option<Visited>)
    requires Links(lib, items)
    ensures v.Some? ==> Later(env, v.value.env)
    decreases |Fresh(lib, env.macros)|, |Bares(lib) - active|, |items|
  {
    if items == [] then Some(Visited(env, 0, [], {}))
    else
      match items[0]
      case Text(t) => Visit(lib, items[1..], Emit(env, Replace(t, env.macros)), active)
      case Inc(p, _) =>
        match VisitOne(lib, p, env, active)
        case None => None
        case Some(one) =>
          FreshShrinks(lib, env.macros, one.env.macros);
          match Visit(lib, items[1..], one.env, active)
          case None => None
          case Some(rest) => Some(Then(one, rest))
  }

  function VisitOne(lib: Library, p: string, env: Env, active: set<string>): (v: Option<Visited>)
    requires p in lib
    ensures v.Some? ==> Later(env, v.value.env)
    decreases |Fresh(lib, env.macros)|, |Bares(lib) - active|, 0
  {
    if lib[p].guard.None? then
      if p in active then None
      else
        BareLeft(lib, p, active);
        match Visit(lib, lib[p].items, env, active + {p})
        case None => None
        case Some(v) => Some(Visited(v.env, v.includes + 1, v.guards, v.files + {p}))
    else
      var g := lib[p].guard.value;
      if g in env.macros then Some(Visited(Passed(env), 1, [], {}))
      else
        EnteredFresh(lib, p, env);
        match Visit(lib, lib[p].items, Entered(env, g), {})
        case None => None
        case Some(v) => Some(Visited(Closed(v.env), v.includes + 1, [g] + v.guards, v.files + {p}))
  }

  // one step of each, so that proofs need not open them

  lemma VisitText(lib: Library, items: seq<Item>, env: Env, active: set<string>)
    requires Links(lib, items) && items != [] && items[0].Text?
    ensures var e := Emit(env, Replace(items[0].text, env.macros));
      Visit(lib, items, env, active) == Visit(lib, items[1..], e, active) && e.macros == env.macros
  {
    hide Replace, Fresh, Bares;
  }

  lemma VisitFirst(lib: Library, items: seq<Item>, env: Env, active: set<string>)
    requires Links(lib, items) && items != [] && items[0].Inc?
    ensures var one := VisitOne(lib, items[0].path, env, active);
      Visit(lib, items, env, active) ==
        if one.None? then None
        else
          var rest := Visit(lib, items[1..], one.value.env, active);
          if rest.None? then None else Some(Then(one.value, rest.value))
    ensures var one := VisitOne(lib, items[0].path, env, active);
      one.Some? ==> |Fresh(lib, one.value.env.macros)| <= |Fresh(lib, env.macros)|
  {
    hide Fresh, Bares, VisitOne;
    var one := VisitOne(lib, items[0].path, env, active);
    if one.Some? { FreshShrinks(lib, env.macros, one.value.env.macros); }
  }

  // ---------- a run ends when visiting does ----------

  /** What a run with `budget` includes allowed does, by the visit. */
  predicate Agrees(t: Traced, v: Visited, budget: nat) {
    if v.includes <= budget then t == Through(v.env, budget - v.includes) else t.Spent?
  }

  lemma {:induction false} TraceEnds(lib: Library, items: seq<Item>, env: Env, active: set<string>, budget: nat)
    requires Links(lib, items) && Visit(lib, items, env, active).Some?
    ensures Agrees(Trace(lib, items, env, budget), Visit(lib, items, env, active).value, budget)
    decreases |Fresh(lib, env.macros)|, |Bares(lib) - active|, |items|
  {
    hide Fresh, Bares, Visit, VisitOne, Trace, TraceOne, Replace, Emit;
    if items == [] {
      NothingLeft(lib, env, active, budget);
    } else if items[0].Text? {
      VisitText(lib, items, env, active);
      TraceText(lib, items, env, budget);
      TraceEnds(lib, items[1..], Emit(env, Replace(items[0].text, env.macros)), active, budget);
    } else {
      VisitFirst(lib, items, env, active);
      TraceFirst(lib, items, env, budget);
      var p := items[0].path;
      OneEnds(lib, p, env, active, budget);
      var one := VisitOne(lib, p, env, active).value;
      if one.includes <= budget { TraceEnds(lib, items[1..], one.env, active, budget - one.includes); }
    }
  }

  lemma NothingLeft(lib: Library, env: Env, active: set<string>, budget: nat)
    ensures Visit(lib, [], env, active) == Some(Visited(env, 0, [], {})) && Trace(lib, [], env, budget) == Through(env, budget)
  {}

  lemma {:induction false} OneEnds(lib: Library, p: string, env: Env, active: set<string>, budget: nat)
    requires p in lib && VisitOne(lib, p, env, active).Some?
    ensures Agrees(TraceOne(lib, p, env, budget), VisitOne(lib, p, env, active).value, budget)
    decreases |Fresh(lib, env.macros)|, |Bares(lib) - active|, 0
  {
    hide Fresh, Bares, Visit, Trace;
    if budget > 0 {
      match lib[p].guard
      case None =>
        BareLeft(lib, p, active);
        TraceEnds(lib, lib[p].items, env, active + {p}, budget - 1);
      case Some(g) =>
        if g !in env.macros {
          EnteredFresh(lib, p, env);
          TraceEnds(lib, lib[p].items, Entered(env, g), {}, budget - 1);
        }
    }
  }

  // ---------- and does not when visiting gives up ----------

  /** Unguarded files, each of which includes one of them. */
  ghost predicate Trap(lib: Library, files: set<string>) {
    forall p :: p in files ==> IsBare(lib, p) && Into(lib[p].items, files)
  }

  ghost predicate Into(items: seq<Item>, files: set<string>) {
    exists k :: 0 <= k < |items| && items[k].Inc? && items[k].path in files
  }

  /** Items that lead into a trap use up any number of includes. */
  lemma {:induction false} Trapped(lib: Library, files: set<string>, items: seq<Item>, env: Env, budget: nat)
    requires Links(lib, items) && Trap(lib, files) && Into(items, files)
    ensures Trace(lib, items, env, budget).Spent?
    decreases budget, |items|
  {
    hide Trap, Trace, TraceOne, Replace, Emit;
    var k :| 0 <= k < |items| && items[k].Inc? && items[k].path in files;
    var rest := items[1..];
    if k > 0 { assert rest[k - 1] == items[k]; }
    if items[0].Text? {
      TraceText(lib, items, env, budget);
      Trapped(lib, files, rest, Emit(env, Replace(items[0].text, env.macros)), budget);
    } else {
      TraceFirst(lib, items, env, budget);
      if k == 0 {
        OneTrapped(lib, files, items[0].path, env, budget);
      } else {
        var one := TraceOne(lib, items[0].path, env, budget);
        if one.Through? { Trapped(lib, files, rest, one.env, one.budget); }
      }
    }
  }

  lemma {:induction false} OneTrapped(lib: Library, files: set<string>, p: string, env: Env, budget: nat)
    requires p in lib && Trap(lib, files) && p in files
    ensures TraceOne(lib, p, env, budget).Spent?
    decreases budget, 0
  {
    hide Trace, Into;
    if budget > 0 { Trapped(lib, files, lib[p].items, env, budget - 1); }
  }

  /** The active files include one another, or the items to come are the rest of theirs. */
  ghost predicate Chained(lib: Library, active: set<string>, items: seq<Item>) {
    forall a :: a in active ==>
      IsBare(lib, a) && (Into(lib[a].items, active) || forall i :: i in items ==> i in lib[a].items)
  }

  lemma IntoMore(items: seq<Item>, files: set<string>, more: set<string>)
    requires files <= more && Into(items, files)
    ensures Into(items, more)
  {}

  lemma IntoOne(items: seq<Item>, i: Item, files: set<string>)
    requires i in items && i.Inc? && i.path in files
    ensures Into(items, files)
  {
    var k :| 0 <= k < |items| && items[k] == i;
  }

  lemma ChainedRest(lib: Library, active: set<string>, items: seq<Item>)
    requires Chained(lib, active, items) && items != []
    ensures Chained(lib, active, items[1..])
  {
    hide IsBare, Into;
  }

  lemma ChainedInto(lib: Library, active: set<string>, items: seq<Item>)
    requires Chained(lib, active, items) && items != [] && items[0].Inc? && IsBare(lib, items[0].path)
    ensures Chained(lib, active + {items[0].path}, lib[items[0].path].items)
  {
    hide Into;
    var p := items[0].path;
    var more := active + {p};
    forall a | a in more
      ensures IsBare(lib, a) && (Into(lib[a].items, more) || forall i :: i in lib[p].items ==> i in lib[a].items)
    {
      if a in active {
        if Into(lib[a].items, active) { IntoMore(lib[a].items, active, more); } else { IntoOne(lib[a].items, items[0], more); }
      }
    }
  }

  lemma ChainedTrap(lib: Library, active: set<string>, items: seq<Item>)
    requires Chained(lib, active, items) && items != [] && items[0].Inc? && items[0].path in active
    ensures Trap(lib, active)
  {
    hide Into;
    forall a | a in active ensures IsBare(lib, a) && Into(lib[a].items, active) {
      if !Into(lib[a].items, active) { IntoOne(lib[a].items, items[0], active); }
    }
  }

  lemma {:induction false} TraceLoops(lib: Library, items: seq<Item>, env: Env, active: set<string>, budget: nat)
    requires Links(lib, items) && Chained(lib, active, items) && Visit(lib, items, env, active).None?
    ensures Trace(lib, items, env, budget).Spent?
    decreases |Fresh(lib, env.macros)|, |Bares(lib) - active|, |items|
  {
    hide Fresh, Bares, Visit, VisitOne, Trace, TraceOne, Replace, Emit, Chained;
    if items == [] {
      NothingLeft(lib, env, active, budget);
    } else if items[0].Text? {
      VisitText(lib, items, env, active);
      TraceText(lib, items, env, budget);
      ChainedRest(lib, active, items);
      TraceLoops(lib, items[1..], Emit(env, Replace(items[0].text, env.macros)), active, budget);
    } else {
      VisitFirst(lib, items, env, active);
      TraceFirst(lib, items, env, budget);
      var p := items[0].path;
      var one := VisitOne(lib, p, env, active);
      if one.None? {
        OneLoops(lib, items, env, active, budget);
      } else {
        OneEnds(lib, p, env, active, budget);
        ChainedRest(lib, active, items);
        if one.value.includes <= budget {
          TraceLoops(lib, items[1..], one.value.env, active, budget - one.value.includes);
        }
      }
    }
  }

  lemma {:induction false} OneLoops(lib: Library, items: seq<Item>, env: Env, active: set<string>, budget: nat)
    requires Links(lib, items) && Chained(lib, active, items) && items != [] && items[0].Inc?
    requires VisitOne(lib, items[0].path, env, active).None?
    ensures TraceOne(lib, items[0].path, env, budget).Spent?
    decreases |Fresh(lib, env.macros)|, |Bares(lib) - active|, 0
  {
    hide Fresh, Bares, Visit, Trace, Chained;
    var p := items[0].path;
    if budget > 0 {
      match lib[p].guard
      case None =>
        if p in active {
          ChainedTrap(lib, active, items);
          OneTrapped(lib, active, p, env, budget);
        } else {
          BareLeft(lib, p, active);
          ChainedInto(lib, active, items);
          TraceLoops(lib, lib[p].items, env, active + {p}, budget - 1);
        }
      case Some(g) =>
        EnteredFresh(lib, p, env);
        NotChained(lib, lib[p].items);
        TraceLoops(lib, lib[p].items, Entered(env, g), {}, budget - 1);
    }
  }

  lemma NotChained(lib: Library, items: seq<Item>)
    ensures Chained(lib, {}, items)
  {}

  /**
   What expanding the text of some items comes to, for every number of includes allowed: when
   visiting ends, the state it ends in if that many includes are allowed and no end if fewer;
   when it gives up, no end whatever the number.
   */
  lemma EndsExactly(lib: Library, disk: Disk, items: seq<Item>, env: Env, budget: nat)
    requires OnDisk(lib, disk) && Links(lib, items) && ItemsOk(items)
    ensures var r := Expand(disk, WriteAll(BodyLines(items)), 0, env, budget);
      match Visit(lib, items, env, {})
      case None => r.Exhausted?
      case Some(v) => if v.includes <= budget then r == Done(v.env, budget - v.includes) else r.Exhausted?
  {
    hide Expand, Trace, Visit, BodyLines, WriteAll, OnDisk, ItemsOk, Chained;
    TextExpands(lib, disk, items, env, budget);
    if Visit(lib, items, env, {}).Some? {
      TraceEnds(lib, items, env, {}, budget);
    } else {
      NotChained(lib, items);
      TraceLoops(lib, items, env, {}, budget);
    }
  }

  // ---------- the same, read off the graph of includes ----------

  predicate Edge(lib: Library, p: string, q: string) {
    p in lib && exists i :: i in lib[p].items && i.Inc? && i.path == q
  }

  predicate Named(items: seq<Item>, q: string) { exists i :: i in items && i.Inc? && i.path == q }

  /** Each file includes the next. */
  predicate Path(lib: Library, files: seq<string>) {
    && (forall k :: 0 <= k < |files| ==> files[k] in lib)
    && (forall k :: 0 < k < |files| ==> Edge(lib, files[k - 1], files[k]))
  }

  /** Unguarded files in a circle. */
  predicate Circle(lib: Library, files: seq<string>) {
    && files != [] && Path(lib, files) && Edge(lib, files[|files| - 1], files[0])
    && forall k :: 0 <= k < |files| ==> IsBare(lib, files[k])
  }

  /** Not guarded off when these macros are defined. */
  predicate Open(lib: Library, p: string, macros: Macros) {
    p in lib && (lib[p].guard.Some? ==> lib[p].guard.value !in macros)
  }

  /** `path` starts at an include of the items and passes no file that is guarded off. */
  predicate Leads(lib: Library, items: seq<Item>, macros: Macros, path: seq<string>) {
    path != [] && Named(items, path[0]) && Path(lib, path) && forall k :: 0 <= k < |path| ==> Open(lib, path[k], macros)
  }

  ghost predicate Loops(lib: Library, items: seq<Item>, macros: Macros) {
    exists path, circle ::
      Leads(lib, items, macros, path) && Circle(lib, circle) && path[|path| - 1] == circle[0]
  }

  function Elements(s: seq<string>): set<string> { set x | x in s }

  /** Unguarded files, each including the next, the last one including the items to come. */
  predicate Chain(lib: Library, chain: seq<string>, items: seq<Item>) {
    && Path(lib, chain) && (forall k :: 0 <= k < |chain| ==> IsBare(lib, chain[k]))
    && (chain != [] ==> forall i :: i in items ==> i in lib[chain[|chain| - 1]].items)
  }

  lemma ChainRest(lib: Library, chain: seq<string>, items: seq<Item>)
    requires Chain(lib, chain, items) && items != []
    ensures Chain(lib, chain, items[1..])
  {
    hide Edge;
    forall i | i in items[1..] ensures i in items {}
  }

  lemma ChainInto(lib: Library, chain: seq<string>, items: seq<Item>)
    requires Chain(lib, chain, items) && items != [] && items[0].Inc? && IsBare(lib, items[0].path)
    ensures var p := items[0].path;
      Chain(lib, chain + [p], lib[p].items) && Elements(chain + [p]) == Elements(chain) + {p}
  {
    var p := items[0].path;
    var more := chain + [p];
    assert items[0] in items;
    forall k | 0 < k < |more| ensures Edge(lib, more[k - 1], more[k]) {
      if k < |chain| { assert Edge(lib, chain[k - 1], chain[k]); }
    }
  }

  lemma ChainCircle(lib: Library, chain: seq<string>, items: seq<Item>) returns (circle: seq<string>)
    requires Chain(lib, chain, items) && items != [] && items[0].Inc? && items[0].path in chain
    ensures Circle(lib, circle) && circle[0] == items[0].path
  {
    var k :| 0 <= k < |chain| && chain[k] == items[0].path;
    circle := chain[k..];
    assert items[0] in items;
    forall j | 0 < j < |circle| ensures Edge(lib, circle[j - 1], circle[j]) {
      assert Edge(lib, chain[k + j - 1], chain[k + j]);
    }
  }

  lemma LeadsOne(lib: Library, items: seq<Item>, macros: Macros)
    requires items != [] && items[0].Inc? && Open(lib, items[0].path, macros)
    ensures Leads(lib, items, macros, [items[0].path])
  {
    assert items[0] in items;
  }

  lemma LeadsOn(lib: Library, items: seq<Item>, macros: Macros, more: Macros, path: seq<string>)
    requires items != [] && items[0].Inc? && Open(lib, items[0].path, macros) && macros.Keys <= more.Keys
    requires Leads(lib, lib[items[0].path].items, more, path)
    ensures Leads(lib, items, macros, [items[0].path] + path)
  {
    var p := items[0].path;
    var files := [p] + path;
    assert items[0] in items;
    forall k | 0 <= k < |files| ensures Open(lib, files[k], macros) {
      if k > 0 { assert Open(lib, path[k - 1], more); }
    }
    forall k | 0 < k < |files| ensures Edge(lib, files[k - 1], files[k]) {
      if k > 1 { assert Edge(lib, path[k - 2], path[k - 1]); }
    }
  }

  lemma LeadsLater(lib: Library, items: seq<Item>, macros: Macros, more: Macros, path: seq<string>)
    requires items != [] && macros.Keys <= more.Keys && Leads(lib, items[1..], more, path)
    ensures Leads(lib, items, macros, path)
  {
    hide Path;
    var i :| i in items[1..] && i.Inc? && i.path == path[0];
    assert i in items;
    forall k | 0 <= k < |path| ensures Open(lib, path[k], macros) { assert Open(lib, path[k], more); }
  }

  /** Where visiting gives up there is a circle, and a way to it. */
  lemma {:induction false} FindCircle(lib: Library, items: seq<Item>, env: Env, chain: seq<string>)
    returns (path: seq<string>, circle: seq<string>)
    requires Links(lib, items) && Chain(lib, chain, items) && Visit(lib, items, env, Elements(chain)).None?
    ensures Leads(lib, items, env.macros, path) && Circle(lib, circle) && path[|path| - 1] == circle[0]
    decreases |Fresh(lib, env.macros)|, |Bares(lib) - Elements(chain)|, |items|
  {
    hide Fresh, Bares, Visit, VisitOne, Replace, Chain, Leads, Circle, Elements;
    var active := Elements(chain);
    if items == [] {
      NothingLeft(lib, env, active, 0);
      assert false;
    } else if items[0].Text? {
      VisitText(lib, items, env, active);
      ChainRest(lib, chain, items);
      path, circle := FindCircle(lib, items[1..], Emit(env, Replace(items[0].text, env.macros)), chain);
      LeadsLater(lib, items, env.macros, env.macros, path);
    } else {
      VisitFirst(lib, items, env, active);
      var one := VisitOne(lib, items[0].path, env, active);
      if one.Some? {
        ChainRest(lib, chain, items);
        path, circle := FindCircle(lib, items[1..], one.value.env, chain);
        LeadsLater(lib, items, env.macros, one.value.env.macros, path);
      } else {
        path, circle := CircleInOne(lib, items, env, chain);
      }
    }
  }

  lemma {:induction false} CircleInOne(lib: Library, items: seq<Item>, env: Env, chain: seq<string>)
    returns (path: seq<string>, circle: seq<string>)
    requires Links(lib, items) && Chain(lib, chain, items) && items != [] && items[0].Inc?
    requires VisitOne(lib, items[0].path, env, Elements(chain)).None?
    ensures Leads(lib, items, env.macros, path) && Circle(lib, circle) && path[|path| - 1] == circle[0]
    decreases |Fresh(lib, env.macros)|, |Bares(lib) - Elements(chain)|, 0
  {
    hide Fresh, Bares, Visit, Chain, Leads, Circle;
    var p := items[0].path;
    var inner: seq<string>;
    match lib[p].guard
    case None =>
      if p in chain {
        circle := ChainCircle(lib, chain, items);
        LeadsOne(lib, items, env.macros);
        path := [p];
      } else {
        BareLeft(lib, p, Elements(chain));
        ChainInto(lib, chain, items);
        inner, circle := FindCircle(lib, lib[p].items, env, chain + [p]);
        LeadsOn(lib, items, env.macros, env.macros, inner);
        path := [p] + inner;
        LeadsSome(lib, lib[p].items, env.macros, inner);
      }
    case Some(g) =>
      EnteredFresh(lib, p, env);
      NoChain(lib, lib[p].items);
      inner, circle := FindCircle(lib, lib[p].items, Entered(env, g), []);
      LeadsOn(lib, items, env.macros, Entered(env, g).macros, inner);
      path := [p] + inner;
      LeadsSome(lib, lib[p].items, Entered(env, g).macros, inner);
  }

  lemma LeadsSome(lib: Library, items: seq<Item>, macros: Macros, path: seq<string>)
    requires Leads(lib, items, macros, path)
    ensures path != []
  {}

  lemma NoChain(lib: Library, items: seq<Item>)
    ensures Chain(lib, [], items) && Elements([]) == {}
  {}

  // ---------- what has been visited when visiting ends ----------

  /** An include of `p` has been dealt with: an unguarded file was entered, a guard is defined. */
  predicate Settled(lib: Library, p: string, v: Visited) {
    p in lib && match lib[p].guard case None => p in v.files case Some(g) => g in v.env.macros
  }

  predicate AllSettled(lib: Library, items: seq<Item>, v: Visited) {
    forall i :: i in items && i.Inc? ==> Settled(lib, i.path, v)
  }

  /** Visiting the items of `p` ended. */
  ghost predicate Quits(lib: Library, p: string) {
    p in lib && exists env, active :: Visit(lib, lib[p].items, env, active).Some?
  }

  /** `v` is closed under includes, and defined no guard but those of the files it entered. */
  ghost predicate Complete(lib: Library, before: Macros, v: Visited) {
    && (forall p :: p in v.files ==> Quits(lib, p) && AllSettled(lib, lib[p].items, v))
    && (forall g :: g in v.env.macros ==> g in before || exists p :: p in v.files && GuardedBy(lib, p, g))
  }

  predicate GuardedBy(lib: Library, p: string, g: string) { p in lib && lib[p].guard == Some(g) }

  lemma SettledMore(lib: Library, items: seq<Item>, v: Visited, w: Visited)
    requires AllSettled(lib, items, v) && v.files <= w.files && v.env.macros.Keys <= w.env.macros.Keys
    ensures AllSettled(lib, items, w)
  {
    forall i | i in items && i.Inc? ensures Settled(lib, i.path, w) { assert Settled(lib, i.path, v); }
  }

  lemma WholeThen(lib: Library, before: Macros, a: Visited, b: Visited)
    requires Complete(lib, before, a) && Complete(lib, a.env.macros, b) && a.env.macros.Keys <= b.env.macros.Keys
    ensures Complete(lib, before, Then(a, b))
  {
    hide Visit, GuardedBy, AllSettled;
    var w := Then(a, b);
    forall p | p in w.files ensures Quits(lib, p) && AllSettled(lib, lib[p].items, w) {
      if p in a.files { SettledMore(lib, lib[p].items, a, w); } else { SettledMore(lib, lib[p].items, b, w); }
    }
  }

  /** A file is entered and its items are visited after some change to the macros. */
  lemma WholeEntered(lib: Library, before: Macros, p: string, env: Env, active: set<string>, v: Visited, w: Visited)
    requires p in lib && Visit(lib, lib[p].items, env, active) == Some(v)
    requires Complete(lib, env.macros, v) && AllSettled(lib, lib[p].items, v)
    requires w.files == v.files + {p} && w.env.macros == v.env.macros
    requires forall g :: g in env.macros ==> g in before || GuardedBy(lib, p, g)
    ensures Complete(lib, before, w)
  {
    hide Visit, AllSettled, GuardedBy;
    forall q | q in w.files ensures Quits(lib, q) && AllSettled(lib, lib[q].items, w) {
      SettledMore(lib, lib[q].items, v, w);
    }
  }

  lemma WholeNone(lib: Library, before: Macros, v: Visited)
    requires v.files == {} && v.env.macros == before
    ensures Complete(lib, before, v)
  {}

  lemma {:induction false} AllVisited(lib: Library, items: seq<Item>, env: Env, active: set<string>)
    requires Links(lib, items) && Visit(lib, items, env, active).Some?
    ensures Complete(lib, env.macros, Visit(lib, items, env, active).value)
    ensures AllSettled(lib, items, Visit(lib, items, env, active).value)
    decreases |Fresh(lib, env.macros)|, |Bares(lib) - active|, |items|
  {
    hide Fresh, Bares, Visit, VisitOne, Replace, Complete, Settled;
    if items == [] {
      NothingLeft(lib, env, active, 0);
      WholeNone(lib, env.macros, Visited(env, 0, [], {}));
    } else if items[0].Text? {
      VisitText(lib, items, env, active);
      AllVisited(lib, items[1..], Emit(env, Replace(items[0].text, env.macros)), active);
      FirstSettled(lib, items, Visit(lib, items, env, active).value);
    } else {
      VisitFirst(lib, items, env, active);
      var one := VisitOne(lib, items[0].path, env, active).value;
      OneVisited(lib, items[0].path, env, active);
      AllVisited(lib, items[1..], one.env, active);
      var rest := Visit(lib, items[1..], one.env, active).value;
      WholeThen(lib, env.macros, one, rest);
      SettledMore(lib, items[1..], rest, Then(one, rest));
      SettledMore(lib, items[..1], one, Then(one, rest));
      FirstSettled(lib, items, Then(one, rest));
    }
  }

  lemma FirstSettled(lib: Library, items: seq<Item>, v: Visited)
    requires items != [] && AllSettled(lib, items[1..], v) && (items[0].Inc? ==> AllSettled(lib, items[..1], v))
    ensures AllSettled(lib, items, v)
  {
    hide Settled;
    forall i | i in items && i.Inc? ensures Settled(lib, i.path, v) {
      var k :| 0 <= k < |items| && items[k] == i;
      if k == 0 { assert items[..1][0] == i; } else { assert items[1..][k - 1] == i; }
    }
  }

  lemma {:induction false} OneVisited(lib: Library, p: string, env: Env, active: set<string>)
    requires p in lib && VisitOne(lib, p, env, active).Some?
    ensures var v := VisitOne(lib, p, env, active).value;
      Complete(lib, env.macros, v) && Settled(lib, p, v)
    decreases |Fresh(lib, env.macros)|, |Bares(lib) - active|, 0
  {
    hide Fresh, Bares, Visit, Complete, AllSettled;
    var v := VisitOne(lib, p, env, active).value;
    match lib[p].guard
    case None =>
      BareLeft(lib, p, active);
      AllVisited(lib, lib[p].items, env, active + {p});
      WholeEntered(lib, env.macros, p, env, active + {p}, Visit(lib, lib[p].items, env, active + {p}).value, v);
    case Some(g) =>
      if g in env.macros {
        WholeNone(lib, env.macros, v);
      } else {
        EnteredFresh(lib, p, env);
        AllVisited(lib, lib[p].items, Entered(env, g), {});
        WholeEntered(lib, env.macros, p, Entered(env, g), {}, Visit(lib, lib[p].items, Entered(env, g), {}).value, v);
      }
  }

  /** No two files share a guard. */
  predicate OwnGuards(lib: Library) {
    forall p, q :: p in lib && q in lib && lib[p].guard.Some? && lib[p].guard == lib[q].guard ==> p == q
  }

  /** Visiting enters every file that can be reached. */
  lemma {:induction false} ReachedEntered(lib: Library, items: seq<Item>, env: Env, path: seq<string>, k: nat)
    requires Links(lib, items) && OwnGuards(lib) && Visit(lib, items, env, {}).Some?
    requires Leads(lib, items, env.macros, path) && k < |path|
    ensures path[k] in Visit(lib, items, env, {}).value.files
    decreases k
  {
    hide Visit, Quits;
    AllVisited(lib, items, env, {});
    var v := Visit(lib, items, env, {}).value;
    var q := path[k];
    assert Open(lib, q, env.macros);
    if k == 0 {
      assert Settled(lib, q, v);
    } else {
      ReachedEntered(lib, items, env, path, k - 1);
      assert Edge(lib, path[k - 1], q);
      assert Settled(lib, q, v);
    }
    if lib[q].guard.Some? {
      var g := lib[q].guard.value;
      var p :| p in v.files && GuardedBy(lib, p, g);
    }
  }

  lemma CircleTrap(lib: Library, circle: seq<string>)
    requires Circle(lib, circle)
    ensures Trap(lib, Elements(circle))
  {
    var files := Elements(circle);
    forall p | p in files ensures IsBare(lib, p) && Into(lib[p].items, files) {
      var k :| 0 <= k < |circle| && circle[k] == p;
      var q := if k + 1 < |circle| then circle[k + 1] else circle[0];
      assert Edge(lib, p, q) by {
        if k + 1 < |circle| { assert Edge(lib, circle[k + 1 - 1], circle[k + 1]); }
      }
      var i :| i in lib[p].items && i.Inc? && i.path == q;
      IntoOne(lib[p].items, i, files);
    }
  }

  /** No file of a circle is ever left. */
  lemma CircleStays(lib: Library, circle: seq<string>)
    requires Circle(lib, circle)
    ensures !Quits(lib, circle[0])
  {
    hide Visit, Trace, Trap;
    CircleTrap(lib, circle);
    var p := circle[0];
    if Quits(lib, p) {
      var env, active :| Visit(lib, lib[p].items, env, active).Some?;
      var v := Visit(lib, lib[p].items, env, active).value;
      TraceEnds(lib, lib[p].items, env, active, v.includes);
      TrapInto(lib, Elements(circle), p);
      Trapped(lib, Elements(circle), lib[p].items, env, v.includes);
    }
  }

  lemma TrapInto(lib: Library, files: set<string>, p: string)
    requires Trap(lib, files) && p in files
    ensures IsBare(lib, p) && Into(lib[p].items, files)
  {}

  lemma ReachedCircle(lib: Library, items: seq<Item>, macros: Macros) returns (path: seq<string>, circle: seq<string>)
    requires Loops(lib, items, macros)
    ensures Leads(lib, items, macros, path) && Circle(lib, circle) && path != [] && path[|path| - 1] == circle[0]
  {
    path, circle :| Leads(lib, items, macros, path) && Circle(lib, circle) && path[|path| - 1] == circle[0];
  }

  /** Visiting gives up exactly when a circle of unguarded files can be reached. */
  lemma GivesUp(lib: Library, items: seq<Item>, env: Env)
    requires Links(lib, items)
    ensures Visit(lib, items, env, {}).None? ==> Loops(lib, items, env.macros)
    ensures OwnGuards(lib) && Loops(lib, items, env.macros) ==> Visit(lib, items, env, {}).None?
  {
    hide Visit, Leads, Path, OwnGuards, Quits, Chain;
    if Visit(lib, items, env, {}).None? {
      NoChain(lib, items);
      var path, circle := FindCircle(lib, items, env, []);
    } else if OwnGuards(lib) && Loops(lib, items, env.macros) {
      var path, circle := ReachedCircle(lib, items, env.macros);
      ReachedEntered(lib, items, env, path, |path| - 1);
      AllVisited(lib, items, env, {});
      CircleStays(lib, circle);
      assert false;
    }
  }

  /**
   Expanding ends, for some number of includes allowed, exactly when no circle of unguarded
   files can be reached through files that are not guarded off to begin with.
   */
  lemma EndsUnlessCircle(lib: Library, disk: Disk, items: seq<Item>, env: Env)
    requires OnDisk(lib, disk) && Links(lib, items) && ItemsOk(items) && OwnGuards(lib)
    ensures (exists budget :: Expand(disk, WriteAll(BodyLines(items)), 0, env, budget).Done?) <==> !Loops(lib, items, env.macros)
    ensures Loops(lib, items, env.macros) ==> forall budget :: Expand(disk, WriteAll(BodyLines(items)), 0, env, budget).Exhausted?
  {
    hide Expand, Visit, Loops, OnDisk, ItemsOk, OwnGuards, BodyLines, WriteAll;
    GivesUp(lib, items, env);
    var text := WriteAll(BodyLines(items));
    if Loops(lib, items, env.macros) {
      forall budget: nat ensures Expand(disk, text, 0, env, budget).Exhausted? { EndsExactly(lib, disk, items, env, budget); }
    } else {
      VisitedEnds(lib, disk, items, env);
    }
  }

  lemma SharedEnds(lib: Library, items: seq<Item>, env: Env)
    requires Links(lib, items) && env.macros == map[] && items == [Inc("a", false), Inc("b", false)]
    requires lib["a"] == File(Some("G"), []) && lib["b"].guard == Some("G")
    ensures Visit(lib, items, env, {}).Some?
  {
    hide Visit;
    assert items[1..] == [Inc("b", false)] && items[1..][1..] == [];
    NothingLeft(lib, Entered(env, "G"), {}, 0);
    var first := Closed(Entered(env, "G"));
    assert VisitOne(lib, "a", env, {}).value.env == first;
    assert VisitOne(lib, "b", first, {}) == Some(Visited(Passed(first), 1, [], {}));
    NothingLeft(lib, Passed(first), {}, 0);
    VisitFirst(lib, items, env, {});
    VisitFirst(lib, items[1..], first, {});
  }

  /** Files that share a guard can keep one another from being entered, so that a circle is never met and the run ends. */
  lemma SharedGuard(disk: Disk, env: Env)
    requires env.macros == map[]
    ensures var u := Inc("u", false); var items := [Inc("a", false), Inc("b", false)];
      var lib: Library := map["a" := File(Some("G"), []), "b" := File(Some("G"), [u]), "u" := File(None, [u])];
      && Loops(lib, items, env.macros) && Visit(lib, items, env, {}).Some?
      && (OnDisk(lib, disk) && ItemsOk(items) ==>
        exists budget: nat :: Expand(disk, WriteAll(BodyLines(items)), 0, env, budget).Done?)
  {
    hide Fresh, Bares, Expand, OnDisk, ItemsOk, BodyLines, WriteAll;
    var u, items := Inc("u", false), [Inc("a", false), Inc("b", false)];
    var lib: Library := map["a" := File(Some("G"), []), "b" := File(Some("G"), [u]), "u" := File(None, [u])];
    assert items[1].path == "b" && lib["b"].items[0] == u && lib["u"].items[0] == u;
    assert Edge(lib, "b", "u") && Edge(lib, "u", "u");
    var path := ["b", "u"];
    assert Path(lib, path) && Leads(lib, items, env.macros, path);
    assert Path(lib, ["u"]) && Circle(lib, ["u"]);
    SharedEnds(lib, items, env);
    if OnDisk(lib, disk) && ItemsOk(items) { VisitedEnds(lib, disk, items, env); }
  }

  lemma VisitedEnds(lib: Library, disk: Disk, items: seq<Item>, env: Env)
    requires OnDisk(lib, disk) && Links(lib, items) && ItemsOk(items) && Visit(lib, items, env, {}).Some?
    ensures exists budget: nat :: Expand(disk, WriteAll(BodyLines(items)), 0, env, budget).Done?
  {
    hide Expand, Visit, OnDisk, ItemsOk, BodyLines, WriteAll;
    var budget := Visit(lib, items, env, {}).value.includes;
    EndsExactly(lib, disk, items, env, budget);
    assert Expand(disk, WriteAll(BodyLines(items)), 0, env, budget).Done?;
  }

  /** Where every file is guarded there is nothing to give up for. */
  lemma GuardedEnds(lib: Library, items: seq<Item>, env: Env)
    requires Links(lib, items) && forall p :: p in lib ==> lib[p].guard.Some?
    ensures Visit(lib, items, env, {}).Some?
  {
    hide Visit;
    GivesUp(lib, items, env);
  }

  // ---------- once each ----------

  /** `gs` are different names, none of them in `before`; together with `before` they are all of `after`. */
  ghost predicate Added(before: Macros, gs: seq<string>, after: Macros) {
    && (forall j, k :: 0 <= j < k < |gs| ==> gs[j] != gs[k])
    && (forall k :: 0 <= k < |gs| ==> gs[k] !in before)
    && (forall m :: m in after <==> m in before || m in gs)
    && (forall m :: m in before ==> m in after && after[m] == before[m])
  }

  lemma AddedTwice(a: Macros, x: seq<string>, b: Macros, y: seq<string>, c: Macros)
    requires Added(a, x, b) && Added(b, y, c)
    ensures Added(a, x + y, c)
  {
    var gs := x + y;
    forall j, k | 0 <= j < k < |gs| ensures gs[j] != gs[k] {
      if j < |x| <= k { assert gs[j] in x && gs[j] in b; }
    }
  }

  lemma AddedNone(a: Macros)
    ensures Added(a, [], a)
  {}

  lemma AddedOne(a: Macros, g: string)
    requires g !in a
    ensures Added(a, [g], a[g := ""])
  {}

  /** However the files include one another, each guard is defined at most once, so each guarded body comes out at most once. */
  lemma {:induction false} OnceEach(lib: Library, items: seq<Item>, env: Env, active: set<string>)
    requires Links(lib, items) && Visit(lib, items, env, active).Some?
    ensures var v := Visit(lib, items, env, active).value; Added(env.macros, v.guards, v.env.macros)
    decreases |Fresh(lib, env.macros)|, |Bares(lib) - active|, |items|
  {
    hide Fresh, Bares, Added, Visit, VisitOne, Replace;
    if items == [] {
      NothingLeft(lib, env, active, 0);
      AddedNone(env.macros);
    } else if items[0].Text? {
      VisitText(lib, items, env, active);
      OnceEach(lib, items[1..], Emit(env, Replace(items[0].text, env.macros)), active);
    } else {
      VisitFirst(lib, items, env, active);
      var one := VisitOne(lib, items[0].path, env, active).value;
      OnceEach(lib, items[1..], one.env, active);
      OnceInOne(lib, items[0].path, env, active);
      var rest := Visit(lib, items[1..], one.env, active).value;
      AddedTwice(env.macros, one.guards, one.env.macros, rest.guards, rest.env.macros);
    }
  }

  lemma {:induction false} OnceInOne(lib: Library, p: string, env: Env, active: set<string>)
    requires p in lib && VisitOne(lib, p, env, active).Some?
    ensures var v := VisitOne(lib, p, env, active).value; Added(env.macros, v.guards, v.env.macros)
    decreases |Fresh(lib, env.macros)|, |Bares(lib) - active|, 0
  {
    hide Fresh, Bares, Added, Visit;
    match lib[p].guard
    case None =>
      BareLeft(lib, p, active);
      OnceEach(lib, lib[p].items, env, active + {p});
    case Some(g) =>
      if g in env.macros {
        AddedNone(env.macros);
      } else {
        EnteredFresh(lib, p, env);
        OnceEach(lib, lib[p].items, Entered(env, g), {});
        AddedOne(env.macros, g);
        var inner := Visit(lib, lib[p].items, Entered(env, g), {}).value;
        AddedTwice(env.macros, [g], Entered(env, g).macros, inner.guards, inner.env.macros);
      }
  }

  function Repeat(i: Item, n: nat): seq<Item> { seq(n, _ => i) }

  function Leftover(n: nat): seq<Branch> { seq(n, _ => Branch(false, false)) }

  lemma {:induction false} AgainNothing(lib: Library, i: Item, n: nat, env: Env)
    requires i.Inc? && i.path in lib && lib[i.path].guard.Some? && lib[i.path].guard.value in env.macros
    ensures Visit(lib, Repeat(i, n), env, {}) == Some(Visited(env.(branches := env.branches + Leftover(n)), n, [], {}))
    decreases n
  {
    hide Visit;
    if n == 0 {
      NothingLeft(lib, env, {}, 0);
      assert Repeat(i, 0) == [] && env.branches + Leftover(0) == env.branches;
    } else {
      assert Repeat(i, n)[1..] == Repeat(i, n - 1);
      VisitFirst(lib, Repeat(i, n), env, {});
      AgainNothing(lib, i, n - 1, Passed(env));
      ThenNothing(Passed(env), Visit(lib, Repeat(i, n - 1), Passed(env), {}).value);
      assert Repeat(i, n)[0] == i && VisitOne(lib, i.path, env, {}) == Some(Visited(Passed(env), 1, [], {}));
      assert env.branches + [Branch(false, false)] + Leftover(n - 1) == env.branches + Leftover(n);
    }
  }

  lemma ThenNothing(env: Env, v: Visited)
    ensures Then(Visited(env, 1, [], {}), v) == v.(includes := v.includes + 1)
  {
    assert [] + v.guards == v.guards && {} + v.files == v.files;
  }

  lemma VisitDefines(lib: Library, p: string, env: Env)
    requires p in lib && lib[p].guard.Some? && VisitOne(lib, p, env, {}).Some?
    ensures lib[p].guard.value in VisitOne(lib, p, env, {}).value.env.macros
  {
    hide Visit;
  }

  /**
   Including a guarded file any positive number of times ends just when including it once does,
   and leaves the output and the macros that including it once leaves. Only the branch stack
   grows, by one for each repetition.
   */
  lemma GuardOnce(lib: Library, disk: Disk, i: Item, n: nat, env: Env, budget: nat)
    requires OnDisk(lib, disk) && i.Inc? && ItemOk(i) && i.path in lib && lib[i.path].guard.Some? && n > 0
    ensures var r := Expand(disk, WriteAll(BodyLines(Repeat(i, n))), 0, env, budget);
      match VisitOne(lib, i.path, env, {})
      case None => r.Exhausted?
      case Some(one) =>
        if one.includes + (n - 1) <= budget then
          r == Done(one.env.(branches := one.env.branches + Leftover(n - 1)), budget - one.includes - (n - 1))
        else r.Exhausted?
  {
    hide Visit, VisitOne, Expand, BodyLines, WriteAll, OnDisk, ItemOk;
    var items := Repeat(i, n);
    assert forall j :: j in items ==> j == i;
    assert items[1..] == Repeat(i, n - 1) && items[0] == i;
    VisitFirst(lib, items, env, {});
    EndsExactly(lib, disk, items, env, budget);
    if VisitOne(lib, i.path, env, {}).Some? {
      VisitDefines(lib, i.path, env);
      var one := VisitOne(lib, i.path, env, {}).value;
      AgainNothing(lib, i, n - 1, one.env);
      var after := one.env.(branches := one.env.branches + Leftover(n - 1));
      assert Visit(lib, items, env, {}).value == Then(one, Visited(after, n - 1, [], {}));
    }
  }

  // ---------- the smallest circle ----------

  /** Files without text write nothing. */
  lemma {:induction false} Silent(lib: Library, items: seq<Item>, env: Env, budget: nat)
    requires Links(lib, items) && NoText(items) && forall p :: p in lib ==> lib[p].guard.None? && NoText(lib[p].items)
    ensures var t := Trace(lib, items, env, budget); (if t.Through? then t.env.out else t.out) == env.out
    decreases budget, |items|
  {
    hide Trace;
    if items == [] {
      NothingLeft(lib, env, {}, budget);
    } else {
      assert items[0].Inc?;
      TraceFirst(lib, items, env, budget);
      if budget > 0 { Silent(lib, lib[items[0].path].items, env, budget - 1); }
      var one := TraceOne(lib, items[0].path, env, budget);
      if one.Through? { Silent(lib, items[1..], one.env, one.budget); }
    }
  }

  predicate NoText(items: seq<Item>) { forall i :: i in items ==> i.Inc? }

  /** A file that does nothing but include itself has no end, whatever number of includes is allowed. */
  lemma IncludesItself(disk: Disk, p: string, env: Env, budget: nat)
    requires PathOk(p, false) && p in disk && disk[p] == Write(Including(p))
    ensures Expand(disk, disk[p], 0, env, budget) == Exhausted(env.out)
  {
    hide Expand, Visit, Trace, Write, PathOk;
    var i := Inc(p, false);
    var lib: Library := map[p := File(None, [i])];
    OneInclude(i);
    assert lib[p].items[0] == i && [i][0] == i;
    assert Edge(lib, p, p) && Path(lib, [p]) && Circle(lib, [p]) && Leads(lib, [i], env.macros, [p]);
    EndsUnlessCircle(lib, disk, [i], env);
    TextExpands(lib, disk, [i], env, budget);
    Silent(lib, [i], env, budget);
  }

  lemma OneInclude(i: Item)
    requires i.Inc?
    ensures WriteAll(BodyLines([i])) == Write(IncLine(i.path, i.angled)) != ""
  {
    hide Write;
    var l := IncLine(i.path, i.angled);
    assert [i][1..] == [] && BodyLines([]) == [] && [l] + [] == [l];
    WriteOne(l);
    WriteLonger(l);
  }
}
