/**
 Starting the registered modules: an in-place sort that puts each module behind the modules it
 depends on, then one pass that starts them in that order and drops those that cannot start.
 */
module Modules {

  datatype DepKind = Required | Conflicts | Optional

  datatype Dep = Dep(name: string, kind: DepKind)

  /** What never changes about a module. */
  datatype Info = Info(name: string, deps: seq<Dep>)

  function LowerChar(c: char): char {
    if 'A' <= c <= 'Z' then (c as int + 32) as char else c
  }

  function Lower(s: string): string {
    seq(|s|, i requires 0 <= i < |s| => LowerChar(s[i]))
  }

  /** Names are compared ignoring case. */
  predicate SameName(a: string, b: string) { Lower(a) == Lower(b) }

  /** The registry is keyed by lower-cased name. */
  ghost predicate UniqueNames(s: seq<Info>) {
    forall i, j :: 0 <= i < j < |s| ==> !SameName(s[i].name, s[j].name)
  }

  /** m asks to be started after r. */
  predicate Needs(m: Info, r: Info) {
    exists d :: d in m.deps && !d.kind.Conflicts? && SameName(d.name, r.name)
  }

  /** m cannot start unless r has started. */
  predicate Requires(m: Info, r: Info) {
    exists d :: d in m.deps && d.kind.Required? && SameName(d.name, r.name)
  }

  /** A set of modules still to be started, each of which needs another one of the set. */
  ghost predicate Knot(c: set<Info>, s: seq<Info>, running: set<Info>) {
    c != {} && forall m :: m in c ==> InKnot(m, c, s, running)
  }

  ghost predicate InKnot(m: Info, c: set<Info>, s: seq<Info>, running: set<Info>) {
    m in s && m !in running && exists r :: r in c && r != m && Needs(m, r)
  }

  ghost predicate Acyclic(s: seq<Info>, running: set<Info>) {
    forall c: set<Info> :: !Knot(c, s, running)
  }

  // ---- the sort, one step at a time ----

  /** Position reached and the order so far. */
  datatype Sorting = Sorting(at: nat, order: seq<Info>)

  /** The first position from `from` on of a module with that name, or the length. */
  function FindName(s: seq<Info>, from: nat, name: string): (p: nat)
    requires from <= |s|
    ensures from <= p <= |s|
    ensures p < |s| ==> SameName(name, s[p].name)
    ensures forall j :: from <= j < p ==> !SameName(name, s[j].name)
    decreases |s| - from
  {
    if from == |s| || SameName(name, s[from].name) then from else FindName(s, from + 1, name)
  }

  /** Where the first dependency found at or after `from` is, or the length if none is there. */
  function FindDep(deps: seq<Dep>, s: seq<Info>, from: nat): (p: nat)
    requires from <= |s|
    ensures from <= p <= |s|
    decreases |deps|
  {
    if deps == [] then |s|
    else
      var p := if deps[0].kind.Conflicts? then |s| else FindName(s, from, deps[0].name);
      if p < |s| then p else FindDep(deps[1..], s, from)
  }

  function Swapped(s: seq<Info>, i: nat, j: nat): (t: seq<Info>)
    requires i < |s| && j < |s|
    ensures |t| == |s|
  {
    s[i := s[j]][j := s[i]]
  }

  function Next(st: Sorting, running: set<Info>): (st': Sorting)
    ensures |st'.order| == |st.order|
  {
    if st.at >= |st.order| then st
    else
      var m := st.order[st.at];
      var p := if m in running then |st.order| else FindDep(m.deps, st.order, st.at + 1);
      if p < |st.order| then Sorting(st.at, Swapped(st.order, st.at, p)) else Sorting(st.at + 1, st.order)
  }

  function After(n: nat, st: Sorting, running: set<Info>): (st': Sorting)
    ensures |st'.order| == |st.order|
  {
    if n == 0 then st else After(n - 1, Next(st, running), running)
  }

  /** FindDep finds a needed module exactly when one is there. */
  lemma {:induction false} FindDepNeeds(m: Info, deps: seq<Dep>, s: seq<Info>, from: nat)
    requires from <= |s| && forall d :: d in deps ==> d in m.deps
    ensures FindDep(deps, s, from) < |s| ==> Needs(m, s[FindDep(deps, s, from)])
    ensures FindDep(deps, s, from) == |s| ==>
              forall d, j :: d in deps && !d.kind.Conflicts? && from <= j < |s| ==> !SameName(d.name, s[j].name)
    decreases |deps|
  {
    if deps != [] {
      assert deps[0] in m.deps;
      forall d | d in deps[1..] ensures d in m.deps {
        assert d in deps;
      }
      FindDepNeeds(m, deps[1..], s, from);
      assert forall d :: d in deps ==> d == deps[0] || d in deps[1..];
    }
  }

  lemma NextNeeds(st: Sorting, running: set<Info>)
    requires st.at < |st.order|
    ensures var m := st.order[st.at]; var st' := Next(st, running);
            if st'.at == st.at then
              m !in running && exists p :: st.at < p < |st.order| && Needs(m, st.order[p])
                                           && st' == Sorting(st.at, Swapped(st.order, st.at, p))
            else
              && st' == Sorting(st.at + 1, st.order)
              && (m !in running ==> forall j :: st.at < j < |st.order| ==> !Needs(m, st.order[j]))
  {
    var m := st.order[st.at];
    FindDepNeeds(m, m.deps, st.order, st.at + 1);
  }

  // ---- what the order means ----

  /** Every module before k that is still to be started has nothing it needs behind it. */
  ghost predicate Settled(s: seq<Info>, k: nat, running: set<Info>) {
    forall i, j :: 0 <= i < k && i < j < |s| && s[i] !in running ==> !Needs(s[i], s[j])
  }

  ghost predicate Sorted(s: seq<Info>, running: set<Info>) { Settled(s, |s|, running) }

  lemma SwappedSettled(s: seq<Info>, k: nat, p: nat, running: set<Info>)
    requires k < p < |s| && Settled(s, k, running)
    ensures Settled(Swapped(s, k, p), k, running)
  {
    var t := Swapped(s, k, p);
    forall i, j | 0 <= i < k && i < j < |t| && t[i] !in running ensures !Needs(t[i], t[j]) {
      var j' := if j == k then p else if j == p then k else j;
      assert t[i] == s[i] && t[j] == s[j'];
    }
  }

  lemma NextSettled(st: Sorting, running: set<Info>)
    requires st.at <= |st.order| && Settled(st.order, st.at, running)
    ensures var st' := Next(st, running);
            st.at <= st'.at <= |st'.order| && Settled(st'.order, st'.at, running)
            && multiset(st'.order) == multiset(st.order)
  {
    if st.at < |st.order| {
      NextNeeds(st, running);
      if Next(st, running).at == st.at {
        var m := st.order[st.at];
        var p :| st.at < p < |st.order| && Needs(m, st.order[p])
                 && Next(st, running) == Sorting(st.at, Swapped(st.order, st.at, p));
        SwappedSettled(st.order, st.at, p, running);
      }
    }
  }

  /** At every moment of the sort: a permutation whose prefix is settled. */
  lemma {:induction false} AfterSettled(n: nat, st: Sorting, running: set<Info>)
    requires st.at <= |st.order| && Settled(st.order, st.at, running)
    ensures var st' := After(n, st, running);
            st.at <= st'.at <= |st'.order| && Settled(st'.order, st'.at, running)
            && multiset(st'.order) == multiset(st.order)
  {
    hide Next, Settled;
    if n > 0 {
      NextSettled(st, running);
      AfterSettled(n - 1, Next(st, running), running);
    }
  }

  // ---- termination ----

  ghost predicate Distinct(s: seq<Info>) {
    forall i, j :: 0 <= i < j < |s| ==> s[i] != s[j]
  }

  lemma UniqueDistinct(s: seq<Info>)
    requires UniqueNames(s)
    ensures Distinct(s)
  {}

  ghost function Elements(s: seq<Info>): set<Info> { set x | x in s }

  /** The modules seen so far at one position: each needs the next one, the last needs m. */
  ghost predicate Trail(chain: seq<Info>, m: Info, s: set<Info>, running: set<Info>) {
    m in s && m !in chain && forall i :: 0 <= i < |chain| ==> Link(chain[i], (chain + [m])[i + 1], s, running)
  }

  ghost predicate Link(a: Info, b: Info, s: set<Info>, running: set<Info>) {
    a in s && a !in running && a != b && Needs(a, b)
  }

  lemma TrailGrows(chain: seq<Info>, m: Info, r: Info, s: set<Info>, running: set<Info>)
    requires Trail(chain, m, s, running) && Link(m, r, s, running) && r in s && r !in chain
    ensures Trail(chain + [m], r, s, running)
  {
    var longer := chain + [m];
    forall i | 0 <= i < |longer| ensures Link(longer[i], (longer + [r])[i + 1], s, running) {
      if i < |chain| {
        assert (longer + [r])[i + 1] == (chain + [m])[i + 1];
      }
    }
  }

  /** The part of a trail from its k-th module on. */
  ghost function Loop(trail: seq<Info>, k: nat): set<Info> {
    set i | k <= i < |trail| :: trail[i]
  }

  lemma LoopLinks(chain: seq<Info>, m: Info, k: nat, i: nat, s: seq<Info>, running: set<Info>)
    requires Trail(chain, m, Elements(s), running) && k < |chain| && k <= i <= |chain|
    requires Link(m, chain[k], Elements(s), running)
    ensures InKnot((chain + [m])[i], Loop(chain + [m], k), s, running)
  {
    hide Needs;
    var longer := chain + [m];
    assert longer[k] in Loop(longer, k);
    if i < |chain| {
      assert Link(chain[i], longer[i + 1], Elements(s), running);
      assert longer[i + 1] in Loop(longer, k);
    }
  }

  /** Coming back to a module of the trail closes a knot. */
  lemma TrailCloses(chain: seq<Info>, m: Info, r: Info, s: seq<Info>, running: set<Info>)
    requires Trail(chain, m, Elements(s), running) && Link(m, r, Elements(s), running) && r in chain
    ensures !Acyclic(s, running)
  {
    hide Trail, Link, InKnot, Needs;
    var k :| 0 <= k < |chain| && chain[k] == r;
    var c := Loop(chain + [m], k);
    forall x | x in c ensures InKnot(x, c, s, running) {
      var i :| k <= i < |chain + [m]| && (chain + [m])[i] == x;
      LoopLinks(chain, m, k, i, s, running);
    }
    assert (chain + [m])[k] in c;
    assert Knot(c, s, running);
  }

  function Other(k: int, i: int, j: int): int {
    if k == i then j else if k == j then i else k
  }

  lemma SwappedAt(s: seq<Info>, i: nat, j: nat)
    requires i < j < |s|
    ensures forall k :: 0 <= k < |s| ==> Swapped(s, i, j)[k] == s[Other(k, i, j)]
  {}

  lemma SwappedDistinct(s: seq<Info>, i: nat, j: nat)
    requires i < j < |s| && Distinct(s)
    ensures Distinct(Swapped(s, i, j))
  {
    hide Swapped;
    SwappedAt(s, i, j);
    var t := Swapped(s, i, j);
    forall a, b | 0 <= a < b < |t| ensures t[a] != t[b] {
      assert s[Other(a, i, j)] != s[Other(b, i, j)];
    }
  }

  lemma SwappedElements(s: seq<Info>, i: nat, j: nat)
    requires i < j < |s|
    ensures Elements(Swapped(s, i, j)) == Elements(s)
  {
    hide Swapped;
    SwappedAt(s, i, j);
    var t := Swapped(s, i, j);
    forall x | x in s ensures x in t {
      var k :| 0 <= k < |s| && s[k] == x;
      assert t[Other(k, i, j)] == x;
    }
    forall x | x in t ensures x in s {
      var k :| 0 <= k < |t| && t[k] == x;
      assert s[Other(k, i, j)] == x;
    }
  }

  /** With no knot the sort comes to its end. */
  lemma {:induction false} FinishFrom(st: Sorting, chain: seq<Info>, s: seq<Info>, running: set<Info>) returns (n: nat)
    requires st.at <= |st.order| && Distinct(st.order) && Elements(st.order) == Elements(s)
    requires Acyclic(s, running)
    requires st.at < |st.order| ==> Trail(chain, st.order[st.at], Elements(s), running)
    ensures After(n, st, running).at == |st.order|
    decreases |st.order| - st.at, Elements(s) - Elements(chain)
  {
    hide Next, Distinct, Acyclic, Trail, Needs;
    if st.at == |st.order| {
      n := 0;
      return;
    }
    NextNeeds(st, running);
    var st' := Next(st, running);
    var rest: nat;
    if st'.at == st.at {
      var m := st.order[st.at];
      var p :| st.at < p < |st.order| && Needs(m, st.order[p]) && st' == Sorting(st.at, Swapped(st.order, st.at, p));
      TrailStep(st.order, st.at, p, chain, s, running);
      rest := FinishFrom(st', chain + [m], s, running);
    } else {
      TrailStarts(st', s, running);
      rest := FinishFrom(st', [], s, running);
    }
    n := rest + 1;
    assert After(n, st, running) == After(rest, st', running);
  }

  lemma TrailStarts(st: Sorting, s: seq<Info>, running: set<Info>)
    requires Elements(st.order) == Elements(s)
    ensures st.at < |st.order| ==> Trail([], st.order[st.at], Elements(s), running)
  {
    if st.at < |st.order| {
      assert st.order[st.at] in Elements(st.order);
    }
  }

  lemma TrailStep(order: seq<Info>, at: nat, p: nat, chain: seq<Info>, s: seq<Info>, running: set<Info>)
    requires at < p < |order| && Distinct(order) && Elements(order) == Elements(s) && Acyclic(s, running)
    requires Trail(chain, order[at], Elements(s), running)
    requires Needs(order[at], order[p]) && order[at] !in running
    ensures Distinct(Swapped(order, at, p)) && Elements(Swapped(order, at, p)) == Elements(s)
    ensures Trail(chain + [order[at]], order[p], Elements(s), running)
    ensures Elements(s) - Elements(chain + [order[at]]) < Elements(s) - Elements(chain)
  {
    hide Needs, Acyclic;
    var m, r := order[at], order[p];
    SwappedDistinct(order, at, p);
    SwappedElements(order, at, p);
    assert m in Elements(order) && r in Elements(order);
    assert Link(m, r, Elements(s), running);
    if r in chain {
      TrailCloses(chain, m, r, s, running);
    }
    TrailGrows(chain, m, r, Elements(s), running);
    assert m in Elements(s) - Elements(chain);
    assert m in Elements(chain + [m]);
    assert forall x :: x in chain ==> x in chain + [m];
  }

  ghost predicate Found(x: Info, order: seq<Info>, from: nat) {
    exists j :: from <= j < |order| && order[j] == x
  }

  /** The whole set lies at the position reached or behind it. */
  ghost predicate Ahead(c: set<Info>, st: Sorting) {
    st.at <= |st.order| && forall m :: m in c ==> Found(m, st.order, st.at)
  }

  lemma AheadSwapped(c: set<Info>, st: Sorting, p: nat)
    requires Ahead(c, st) && st.at < p < |st.order|
    ensures Ahead(c, Sorting(st.at, Swapped(st.order, st.at, p)))
  {
    var order := Swapped(st.order, st.at, p);
    forall x | x in c ensures Found(x, order, st.at) {
      var j :| st.at <= j < |st.order| && st.order[j] == x;
      var j' := if j == st.at then p else if j == p then st.at else j;
      assert order[j'] == x;
    }
  }

  lemma KnotNeeds(m: Info, c: set<Info>, s: seq<Info>, running: set<Info>) returns (r: Info)
    requires Knot(c, s, running) && m in c
    ensures m in s && m !in running && r in c && r != m && Needs(m, r)
  {
    hide Knot, Needs;
    KnotMember(m, c, s, running);
    r :| r in c && r != m && Needs(m, r);
  }

  lemma KnotMember(m: Info, c: set<Info>, s: seq<Info>, running: set<Info>)
    requires Knot(c, s, running) && m in c
    ensures InKnot(m, c, s, running)
  {
    hide InKnot;
  }

  lemma AheadMoves(c: set<Info>, st: Sorting, s: seq<Info>, running: set<Info>)
    requires Knot(c, s, running) && Ahead(c, st) && st.at < |st.order|
    requires st.order[st.at] !in running ==> forall j :: st.at < j < |st.order| ==> !Needs(st.order[st.at], st.order[j])
    ensures Ahead(c, Sorting(st.at + 1, st.order))
  {
    hide Needs, Knot;
    forall x | x in c ensures Found(x, st.order, st.at + 1) {
      var r := KnotNeeds(x, c, s, running);
      assert Found(r, st.order, st.at) && Found(x, st.order, st.at);
    }
  }

  /** A knot that lies ahead stays ahead. */
  lemma NextAhead(c: set<Info>, st: Sorting, s: seq<Info>, running: set<Info>)
    requires Knot(c, s, running) && Ahead(c, st)
    ensures Ahead(c, Next(st, running)) && st.at < |st.order|
  {
    hide Next, Needs, InKnot;
    var a :| a in c;
    assert Found(a, st.order, st.at);
    NextNeeds(st, running);
    if Next(st, running).at == st.at {
      var p :| st.at < p < |st.order| && Needs(st.order[st.at], st.order[p])
               && Next(st, running) == Sorting(st.at, Swapped(st.order, st.at, p));
      AheadSwapped(c, st, p);
    } else {
      AheadMoves(c, st, s, running);
    }
  }

  /** With a knot the sort goes on for ever. */
  lemma {:induction false} NeverFinishes(n: nat, c: set<Info>, st: Sorting, s: seq<Info>, running: set<Info>)
    requires Knot(c, s, running) && Ahead(c, st)
    ensures After(n, st, running).at < |st.order|
    decreases n
  {
    hide Knot, Ahead, Next;
    NextAhead(c, st, s, running);
    if n > 0 {
      NeverFinishes(n - 1, c, Next(st, running), s, running);
    }
  }

  lemma AheadAtFirst(c: set<Info>, s: seq<Info>, running: set<Info>)
    requires Knot(c, s, running)
    ensures Ahead(c, Sorting(0, s))
  {
    hide Knot;
    forall m | m in c ensures Found(m, s, 0) {
      var r := KnotNeeds(m, c, s, running);
    }
  }

  ghost predicate Ends(s: seq<Info>, running: set<Info>) {
    exists n: nat :: After(n, Sorting(0, s), running).at == |s|
  }

  /** The sort ends exactly when the modules still to be started are free of dependency cycles. */
  lemma SortEnds(s: seq<Info>, running: set<Info>)
    requires UniqueNames(s)
    ensures Ends(s, running) <==> Acyclic(s, running)
  {
    hide Knot, Ahead, After, Trail, UniqueNames, Distinct, Elements;
    if Acyclic(s, running) {
      UniqueDistinct(s);
      TrailStarts(Sorting(0, s), s, running);
      var n := FinishFrom(Sorting(0, s), [], s, running);
      assert After(n, Sorting(0, s), running).at == |s|;
    } else {
      var c :| Knot(c, s, running);
      AheadAtFirst(c, s, running);
      forall n: nat ensures After(n, Sorting(0, s), running).at != |s| {
        NeverFinishes(n, c, Sorting(0, s), s, running);
      }
    }
  }

  lemma PairIsKnot(m: Info, n: Info, s: seq<Info>)
    requires m in s && n in s && m != n && Needs(m, n) && Needs(n, m)
    ensures !Acyclic(s, {})
  {
    hide Needs;
    assert InKnot(m, {m, n}, s, {}) && InKnot(n, {m, n}, s, {});
    PairOnly(m, n, s);
  }

  lemma PairOnly(m: Info, n: Info, s: seq<Info>)
    requires InKnot(m, {m, n}, s, {}) && InKnot(n, {m, n}, s, {})
    ensures !Acyclic(s, {})
  {
    hide InKnot;
    assert Knot({m, n}, s, {});
  }

  lemma RequiringNeeds(m: Info, n: Info)
    requires m.deps == [Dep(n.name, Required)]
    ensures Needs(m, n)
  {
    assert m.deps[0] in m.deps;
  }

  /** Two modules that require each other: the sort swaps them for ever. */
  lemma TwoWayNeverEnds(a: string, b: string)
    requires !SameName(a, b)
    ensures var s := [Info(a, [Dep(b, Required)]), Info(b, [Dep(a, Required)])];
            UniqueNames(s) && !Ends(s, {})
  {
    hide Ends, Acyclic, Needs, SameName;
    var m, n := Info(a, [Dep(b, Required)]), Info(b, [Dep(a, Required)]);
    var s := [m, n];
    RequiringNeeds(m, n);
    RequiringNeeds(n, m);
    SameAsSelf(a);
    assert s[0] == m && s[1] == n;
    PairIsKnot(m, n, s);
    SortEnds(s, {});
  }

  lemma SameAsSelf(a: string)
    ensures SameName(a, a)
  {}

  /** Where the sort ends it leaves a sorted permutation. */
  lemma SortedAfter(n: nat, s: seq<Info>, running: set<Info>)
    requires After(n, Sorting(0, s), running).at == |s|
    ensures Sorted(After(n, Sorting(0, s), running).order, running)
    ensures multiset(After(n, Sorting(0, s), running).order) == multiset(s)
  {
    AfterSettled(n, Sorting(0, s), running);
  }

  // ---- starting in that order ----

  ghost predicate Met(d: Dep, all: set<Info>, run: set<Info>) {
    exists r :: r in all && SameName(d.name, r.name) && r in run
  }

  /** Every required module is registered and has started. */
  ghost predicate AllMet(m: Info, all: set<Info>, run: set<Info>) {
    forall d :: d in m.deps && d.kind.Required? ==> Met(d, all, run)
  }

  /** The modules running once the first k have had their turn; a module counts as started while it is checked. */
  ghost function RunningAt(s: seq<Info>, k: nat, run: set<Info>): (r: set<Info>)
    requires k <= |s|
  {
    if k == 0 then run
    else
      var before := RunningAt(s, k - 1, run);
      if AllMet(s[k - 1], Elements(s), before + {s[k - 1]}) then before + {s[k - 1]} else before
  }

  /** A chain of requirements from m, through modules not running, to a name nobody registered. */
  ghost predicate BrokenBy(chain: seq<Info>, m: Info, all: set<Info>, run: set<Info>) {
    && chain != [] && chain[0] == m
    && (forall i :: 0 <= i < |chain| ==> chain[i] in all && chain[i] !in run)
    && (forall i :: 0 <= i < |chain| - 1 ==> Requires(chain[i], chain[i + 1]))
    && LacksName(chain[|chain| - 1], all)
  }

  ghost predicate LacksName(m: Info, all: set<Info>) {
    exists d :: d in m.deps && d.kind.Required? && Nameless(d, all)
  }

  ghost predicate Nameless(d: Dep, all: set<Info>) {
    forall r :: r in all ==> !SameName(d.name, r.name)
  }

  /** Some module among those m transitively requires is not registered. */
  ghost predicate Broken(m: Info, all: set<Info>, run: set<Info>) {
    exists chain :: BrokenBy(chain, m, all, run)
  }

  ghost predicate OneEach(all: set<Info>) {
    forall a, b :: a in all && b in all && SameName(a.name, b.name) ==> a == b
  }

  lemma UniqueOne(s: seq<Info>)
    requires UniqueNames(s)
    ensures OneEach(Elements(s))
  {}

  lemma BrokenHere(m: Info, all: set<Info>, run: set<Info>)
    requires m in all && m !in run && LacksName(m, all)
    ensures Broken(m, all, run)
  {
    hide LacksName, Requires;
    assert BrokenBy([m], m, all, run);
  }

  lemma BrokenOnward(m: Info, r: Info, all: set<Info>, run: set<Info>)
    requires m in all && m !in run && Requires(m, r) && Broken(r, all, run)
    ensures Broken(m, all, run)
  {
    hide LacksName, Requires;
    var chain :| BrokenBy(chain, r, all, run);
    var longer := [m] + chain;
    forall i | 0 <= i < |longer| - 1 ensures Requires(longer[i], longer[i + 1]) {
      if i > 0 {
        assert Requires(chain[i - 1], chain[i - 1 + 1]);
      }
    }
    assert BrokenBy(longer, m, all, run);
  }

  /** A module whose requirements are met is not broken if the running ones are not. */
  lemma {:induction false} MetNotBroken(chain: seq<Info>, m: Info, all: set<Info>, before: set<Info>, run: set<Info>)
    requires OneEach(all) && AllMet(m, all, before + {m})
    requires forall r :: r in before && r in all ==> !Broken(r, all, run)
    ensures !BrokenBy(chain, m, all, run)
    decreases |chain|
  {
    hide OneEach, AllMet, Broken;
    if BrokenBy(chain, m, all, run) {
      if |chain| == 1 {
        MetNamed(m, all, before + {m});
      } else {
        var r := chain[1];
        assert Requires(chain[0], chain[0 + 1]);
        MetRunning(m, r, all, before + {m});
        BrokenTail(chain, all, run);
        if r == m {
          MetNotBroken(chain[1..], m, all, before, run);
        } else {
          BrokenIs(chain[1..], r, all, run);
        }
      }
    }
  }

  lemma BrokenIs(chain: seq<Info>, r: Info, all: set<Info>, run: set<Info>)
    requires BrokenBy(chain, r, all, run)
    ensures Broken(r, all, run)
  {
    hide BrokenBy;
  }

  lemma BrokenTail(chain: seq<Info>, all: set<Info>, run: set<Info>)
    requires |chain| > 1 && BrokenBy(chain, chain[0], all, run)
    ensures BrokenBy(chain[1..], chain[1], all, run)
  {
    hide LacksName, Requires;
    var rest := chain[1..];
    forall i | 0 <= i < |rest| - 1 ensures Requires(rest[i], rest[i + 1]) {
      assert Requires(chain[i + 1], chain[i + 1 + 1]);
    }
  }

  lemma MetNamed(m: Info, all: set<Info>, run: set<Info>)
    requires AllMet(m, all, run)
    ensures !LacksName(m, all)
  {
    hide SameName;
    forall d | d in m.deps && d.kind.Required? ensures !Nameless(d, all) {
      assert Met(d, all, run);
    }
  }

  lemma MetRunning(m: Info, r: Info, all: set<Info>, run: set<Info>)
    requires AllMet(m, all, run) && OneEach(all) && r in all && Requires(m, r)
    ensures r in run
  {
    var d :| d in m.deps && d.kind.Required? && SameName(d.name, r.name);
    assert Met(d, all, run);
    var q :| q in all && SameName(d.name, q.name) && q in run;
    assert SameName(q.name, r.name);
  }

  /** A module that cannot start is broken, given that those before it start unless they are broken. */
  lemma UnmetBroken(s: seq<Info>, k: nat, before: set<Info>, run: set<Info>)
    requires k < |s| && s[k] !in run && Sorted(s, run) && run <= before
    requires forall i :: 0 <= i < k && s[i] !in before ==> Broken(s[i], Elements(s), run)
    requires !AllMet(s[k], Elements(s), before + {s[k]})
    ensures Broken(s[k], Elements(s), run)
  {
    hide Broken, SameName;
    var m, all := s[k], Elements(s);
    var d :| d in m.deps && d.kind.Required? && !Met(d, all, before + {m});
    if Nameless(d, all) {
      assert LacksName(m, all);
      BrokenHere(m, all, run);
    } else {
      var r :| r in all && SameName(d.name, r.name);
      var j :| 0 <= j < |s| && s[j] == r;
      assert r !in before && r != m;
      assert Needs(m, r) && Requires(m, r);
      BrokenOnward(m, r, all, run);
    }
  }

  lemma RunningNotBroken(m: Info, all: set<Info>, run: set<Info>)
    requires m in run
    ensures !Broken(m, all, run)
  {}

  lemma MetUnbroken(m: Info, all: set<Info>, before: set<Info>, run: set<Info>)
    requires OneEach(all) && AllMet(m, all, before + {m})
    requires forall r :: r in before && r in all ==> !Broken(r, all, run)
    ensures !Broken(m, all, run)
  {
    hide OneEach, AllMet, BrokenBy;
    forall chain ensures !BrokenBy(chain, m, all, run) {
      MetNotBroken(chain, m, all, before, run);
    }
  }

  lemma RunningTurn(s: seq<Info>, k: nat, before: set<Info>, run: set<Info>)
    requires k < |s| && UniqueNames(s) && Sorted(s, run) && run <= before
    requires forall i :: 0 <= i < k ==> (s[i] in before <==> !Broken(s[i], Elements(s), run))
    requires forall i :: k <= i < |s| ==> (s[i] in before <==> s[i] in run)
    ensures s[k] in before || AllMet(s[k], Elements(s), before + {s[k]}) <==> !Broken(s[k], Elements(s), run)
  {
    hide Broken, AllMet, Sorted, UniqueNames;
    UniqueOne(s);
    var m, all := s[k], Elements(s);
    if m in run {
      RunningNotBroken(m, all, run);
    } else if AllMet(m, all, before + {m}) {
      forall r | r in before && r in all ensures !Broken(r, all, run) {
        var i :| 0 <= i < |s| && s[i] == r;
        if i > k {
          RunningNotBroken(r, all, run);
        }
      }
      MetUnbroken(m, all, before, run);
    } else {
      UnmetBroken(s, k, before, run);
    }
  }

  /** After k turns: exactly the unbroken ones of the first k run, and the others as they did. */
  lemma {:induction false} RunningIs(s: seq<Info>, k: nat, run: set<Info>)
    requires k <= |s| && UniqueNames(s) && Sorted(s, run)
    ensures run <= RunningAt(s, k, run)
    ensures forall i :: 0 <= i < k ==> (s[i] in RunningAt(s, k, run) <==> !Broken(s[i], Elements(s), run))
    ensures forall i :: k <= i < |s| ==> (s[i] in RunningAt(s, k, run) <==> s[i] in run)
    decreases k
  {
    hide Broken, AllMet, Sorted, UniqueNames, Elements;
    if k > 0 {
      RunningIs(s, k - 1, run);
      RunningTurn(s, k - 1, RunningAt(s, k - 1, run), run);
      UniqueDistinct(s);
    }
  }

  /** After the whole pass exactly the modules with every transitive requirement registered run. */
  lemma StartedExactly(s: seq<Info>, run: set<Info>, m: Info)
    requires UniqueNames(s) && Sorted(s, run) && m in s
    ensures m in RunningAt(s, |s|, run) <==> !Broken(m, Elements(s), run)
  {
    hide Broken, UniqueNames, Sorted, RunningAt, Elements;
    RunningIs(s, |s|, run);
  }

  // ---- the order of the start-up calls ----

  /** The modules whose start-up code ran, in order, once the first k have had their turn. */
  ghost function Calls(s: seq<Info>, k: nat, run: set<Info>): seq<Info>
    requires k <= |s|
  {
    if k == 0 then []
    else
      var m := s[k - 1];
      var call := if m !in RunningAt(s, k - 1, run) && m in RunningAt(s, k, run) then [m] else [];
      Calls(s, k - 1, run) + call
  }

  ghost predicate Late(m: Info, s: seq<Info>, k: nat, run: set<Info>)
    requires k <= |s|
  {
    m !in run && exists i :: 0 <= i < k && s[i] == m
  }

  lemma {:induction false} CallsAre(s: seq<Info>, k: nat, run: set<Info>)
    requires k <= |s|
    ensures forall m :: m in Calls(s, k, run) ==> Late(m, s, k, run)
    ensures RunningAt(s, k, run) == run + Elements(Calls(s, k, run))
    decreases k
  {
    hide AllMet;
    if k > 0 {
      CallsAre(s, k - 1, run);
      var was := Calls(s, k - 1, run);
      forall m | m in was ensures Late(m, s, k, run) {
        assert Late(m, s, k - 1, run);
      }
      assert Elements(was + [s[k - 1]]) == Elements(was) + {s[k - 1]};
    }
  }

  /** No start-up call runs before that of a module its own module needs, and none is repeated. */
  lemma {:induction false} CallsOrdered(s: seq<Info>, k: nat, run: set<Info>)
    requires k <= |s| && UniqueNames(s) && Sorted(s, run)
    ensures var calls := Calls(s, k, run);
            forall i, j :: 0 <= i < j < |calls| ==> !Needs(calls[i], calls[j]) && calls[i] != calls[j]
    decreases k
  {
    hide AllMet, RunningAt, Needs, UniqueNames;
    if k > 0 {
      CallsOrdered(s, k - 1, run);
      UniqueDistinct(s);
      var was := Calls(s, k - 1, run);
      CallsAre(s, k - 1, run);
      forall i | 0 <= i < |was| ensures !Needs(was[i], s[k - 1]) && was[i] != s[k - 1] {
        assert was[i] in was;
        var p :| 0 <= p < k - 1 && s[p] == was[i];
      }
    }
  }

  // ---- the registry ----

  class Entry {
    const info: Info
    var started: bool

    constructor (info: Info)
      ensures this.info == info && !started
    {
      this.info := info;
      started := false;
    }
  }

  ghost function Infos(es: seq<Entry>): (s: seq<Info>)
    ensures |s| == |es| && forall i :: 0 <= i < |es| ==> s[i] == es[i].info
  {
    seq(|es|, i requires 0 <= i < |es| => es[i].info)
  }

  ghost function Running(es: seq<Entry>): set<Info>
    reads es
  {
    set e | e in es && e.started :: e.info
  }

  ghost predicate Marks(es: seq<Entry>, run: set<Info>)
    reads es
  {
    forall i :: 0 <= i < |es| ==> (es[i].started <==> es[i].info in run)
  }

  lemma MarksRunning(es: seq<Entry>)
    requires UniqueNames(Infos(es))
    ensures Marks(es, Running(es))
  {
    UniqueDistinct(Infos(es));
    forall i | 0 <= i < |es| && es[i].info in Running(es) ensures es[i].started {
      var e :| e in es && e.started && e.info == es[i].info;
      var j :| 0 <= j < |es| && es[j] == e;
      assert Infos(es)[i] == Infos(es)[j];
    }
  }

  lemma SwappedUnique(s: seq<Info>, i: nat, j: nat)
    requires i < j < |s| && UniqueNames(s)
    ensures UniqueNames(Swapped(s, i, j))
  {
    hide Swapped, SameName;
    SwappedAt(s, i, j);
    var t := Swapped(s, i, j);
    forall a, b | 0 <= a < b < |t| ensures !SameName(t[a].name, t[b].name) {
      var a', b' := Other(a, i, j), Other(b, i, j);
      SameNameFlips(s[a'].name, s[b'].name);
    }
  }

  lemma SameNameFlips(a: string, b: string)
    ensures SameName(a, b) <==> SameName(b, a)
  {}

  /** The sort keeps the modules and so the uniqueness of their names. */
  lemma {:induction false} AfterKeeps(n: nat, st: Sorting, run: set<Info>)
    requires UniqueNames(st.order)
    ensures UniqueNames(After(n, st, run).order) && Elements(After(n, st, run).order) == Elements(st.order)
  {
    hide Next, Swapped, UniqueNames, Elements, Needs;
    if n > 0 {
      if st.at < |st.order| {
        NextNeeds(st, run);
        if Next(st, run).at == st.at {
          var p :| st.at < p < |st.order| && Next(st, run) == Sorting(st.at, Swapped(st.order, st.at, p));
          SwappedUnique(st.order, st.at, p);
          SwappedElements(st.order, st.at, p);
        }
        AfterKeeps(n - 1, Next(st, run), run);
      } else {
        Unfold(n, st, run);
      }
    }
  }

  // ---- the order that the sort leaves, described without its scans ----

  /** The dependency asks for that module to be started first. */
  predicate Asks(d: Dep, r: Info) { !d.kind.Conflicts? && SameName(d.name, r.name) }

  /** Dependency k is at p, no earlier, and no dependency in front of it is found at all. */
  ghost predicate FirstAt(deps: seq<Dep>, s: seq<Info>, from: nat, p: nat, k: nat)
    requires from <= p < |s| && k < |deps|
  {
    && Asks(deps[k], s[p]) && (forall j :: from <= j < p ==> !Asks(deps[k], s[j]))
    && forall i, j :: 0 <= i < k && from <= j < |s| ==> !Asks(deps[i], s[j])
  }

  /** p is where the first dependency, in the module's own order, that stands at or behind from is; the length if none does. */
  ghost predicate FirstDep(deps: seq<Dep>, s: seq<Info>, from: nat, p: nat)
    requires from <= |s|
  {
    && from <= p <= |s|
    && if p == |s| then forall i, j :: 0 <= i < |deps| && from <= j < |s| ==> !Asks(deps[i], s[j])
       else exists k :: 0 <= k < |deps| && FirstAt(deps, s, from, p, k)
  }

  /** That is one position. */
  lemma FirstDepOnly(deps: seq<Dep>, s: seq<Info>, from: nat, p: nat, q: nat)
    requires from <= |s| && FirstDep(deps, s, from, p) && FirstDep(deps, s, from, q)
    ensures p == q
  {
    hide Asks;
    if p < |s| && q < |s| {
      var k :| 0 <= k < |deps| && FirstAt(deps, s, from, p, k);
      var l :| 0 <= l < |deps| && FirstAt(deps, s, from, q, l);
      assert Asks(deps[k], s[p]) && Asks(deps[l], s[q]);
    }
  }

  lemma {:induction false} FindDepFirst(deps: seq<Dep>, s: seq<Info>, from: nat)
    requires from <= |s|
    ensures FirstDep(deps, s, from, FindDep(deps, s, from))
    decreases |deps|
  {
    hide SameName;
    if deps != [] {
      var p, rest := FindDep(deps, s, from), deps[1..];
      var q := if deps[0].kind.Conflicts? then |s| else FindName(s, from, deps[0].name);
      if q < |s| {
        assert FirstAt(deps, s, from, p, 0);
      } else {
        FindDepFirst(rest, s, from);
        assert forall j :: from <= j < |s| ==> !Asks(deps[0], s[j]);
        assert forall i :: 0 < i < |deps| ==> deps[i] == rest[i - 1];
        if p < |s| {
          var k :| 0 <= k < |rest| && FirstAt(rest, s, from, p, k);
          assert FirstAt(deps, s, from, p, k + 1);
        }
      }
    }
  }

  /** One step: a module still to be started changes places with its first dependency behind it, or the sort moves on. */
  ghost predicate Turn(st: Sorting, st': Sorting, run: set<Info>) {
    && st.at < |st.order|
    && if st.order[st.at] in run then st' == Sorting(st.at + 1, st.order)
       else exists p: nat :: FirstDep(st.order[st.at].deps, st.order, st.at + 1, p) && Turned(st, st', p)
  }

  ghost predicate Turned(st: Sorting, st': Sorting, p: nat)
    requires st.at < |st.order|
  {
    if p < |st.order| then
      && st'.at == st.at && |st'.order| == |st.order| && st'.order[st.at] == st.order[p] && st'.order[p] == st.order[st.at]
      && forall i :: 0 <= i < |st.order| && i != st.at && i != p ==> st'.order[i] == st.order[i]
    else st' == Sorting(st.at + 1, st.order)
  }

  /** The whole sort, step by step. */
  ghost predicate Turns(trace: seq<Sorting>, s: seq<Info>, t: seq<Info>, run: set<Info>) {
    && |trace| > 0 && trace[0] == Sorting(0, s) && trace[|trace| - 1] == Sorting(|s|, t)
    && forall i :: 0 <= i < |trace| - 1 ==> Turn(trace[i], trace[i + 1], run)
  }

  /** t is the order in which the sort leaves s. */
  ghost predicate LeftBySort(s: seq<Info>, t: seq<Info>, run: set<Info>) {
    exists trace :: Turns(trace, s, t, run)
  }

  lemma TurnOnly(st: Sorting, a: Sorting, b: Sorting, run: set<Info>)
    requires Turn(st, a, run) && Turn(st, b, run)
    ensures a == b
  {
    hide FirstDep;
    if st.order[st.at] !in run {
      var p: nat :| FirstDep(st.order[st.at].deps, st.order, st.at + 1, p) && Turned(st, a, p);
      var q: nat :| FirstDep(st.order[st.at].deps, st.order, st.at + 1, q) && Turned(st, b, q);
      FirstDepOnly(st.order[st.at].deps, st.order, st.at + 1, p, q);
      assert p < |st.order| ==> a.order == b.order;
    }
  }

  /** There is one such order. */
  lemma {:induction false} TracesAgree(x: seq<Sorting>, y: seq<Sorting>, s: seq<Info>, t: seq<Info>, u: seq<Info>, run: set<Info>, k: nat)
    requires Turns(x, s, t, run) && Turns(y, s, u, run) && k < |x| && k < |y|
    ensures x[k] == y[k]
    decreases k
  {
    hide Turn;
    if k > 0 {
      TracesAgree(x, y, s, t, u, run, k - 1);
      TurnOnly(x[k - 1], x[k], y[k], run);
    }
  }

  lemma {:induction false} TurnKeepsLength(trace: seq<Sorting>, s: seq<Info>, t: seq<Info>, run: set<Info>, k: nat)
    requires Turns(trace, s, t, run) && k < |trace|
    ensures |trace[k].order| == |s|
    decreases k
  {
    hide FirstDep;
    if k > 0 {
      TurnKeepsLength(trace, s, t, run, k - 1);
      assert Turn(trace[k - 1], trace[k], run);
    }
  }

  lemma LeftByOnly(s: seq<Info>, t: seq<Info>, u: seq<Info>, run: set<Info>)
    requires LeftBySort(s, t, run) && LeftBySort(s, u, run)
    ensures t == u
  {
    hide Turn;
    var x :| Turns(x, s, t, run);
    var y :| Turns(y, s, u, run);
    var k := if |x| <= |y| then |x| - 1 else |y| - 1;
    TracesAgree(x, y, s, t, u, run, k);
    TurnKeepsLength(x, s, t, run, k);
    if |x| < |y| {
      NoTurn(y[k], y[k + 1], run);
    } else if |y| < |x| {
      NoTurn(x[k], x[k + 1], run);
    }
  }

  lemma NoTurn(st: Sorting, st': Sorting, run: set<Info>)
    requires Turn(st, st', run)
    ensures st.at < |st.order|
  {
    hide FirstDep;
  }

  lemma NextTurns(st: Sorting, run: set<Info>)
    requires st.at < |st.order|
    ensures Turn(st, Next(st, run), run)
  {
    hide FirstDep;
    var p := FindDep(st.order[st.at].deps, st.order, st.at + 1);
    FindDepFirst(st.order[st.at].deps, st.order, st.at + 1);
    if st.order[st.at] !in run {
      if p < |st.order| {
        SwappedAt(st.order, st.at, p);
      }
      assert Turned(st, Next(st, run), p);
    }
  }

  lemma {:induction false} AfterTurns(n: nat, st: Sorting, s: seq<Info>, t: seq<Info>, run: set<Info>, trace: seq<Sorting>)
    requires |trace| > 0 && trace[0] == Sorting(0, s) && trace[|trace| - 1] == st
    requires forall i :: 0 <= i < |trace| - 1 ==> Turn(trace[i], trace[i + 1], run)
    requires After(n, st, run) == Sorting(|s|, t) && |st.order| == |s|
    ensures LeftBySort(s, t, run)
    decreases n
  {
    hide Turn, Next;
    if st.at >= |st.order| {
      Unfold(n, st, run);
      assert Turns(trace, s, t, run);
    } else {
      Unfold(n, st, run);
      NextTurns(st, run);
      AfterTurns(n - 1, Next(st, run), s, t, run, trace + [Next(st, run)]);
    }
  }

  lemma SortsToLeft(s: seq<Info>, t: seq<Info>, run: set<Info>)
    requires SortsTo(s, t, run)
    ensures LeftBySort(s, t, run)
  {
    hide After, Turn, Next;
    var n: nat :| After(n, Sorting(0, s), run) == Sorting(|s|, t);
    AfterTurns(n, Sorting(0, s), s, t, run, [Sorting(0, s)]);
  }

  /** The letters A to Z count as a to z, and every other character as itself. */
  lemma CaseIsIgnored(i: nat, c: char)
    ensures i < 26 ==> SameName([(65 + i) as char], [(97 + i) as char])
    ensures SameName([c], [c]) && (!(65 <= c as int <= 90) ==> Lower([c]) == [c])
    ensures i < 26 ==> Lower([(97 + i) as char]) == [(97 + i) as char]
  {}

  /** Two dependencies are put in front in the order in which they are asked for. */
  lemma InOrderAsked(a: string, b: string, c: string)
    requires !SameName(a, b) && !SameName(a, c) && !SameName(b, c)
    ensures var x, y, z := Info(a, [Dep(b, Required), Dep(c, Required)]), Info(b, []), Info(c, []);
            LeftBySort([x, y, z], [y, z, x], {})
  {
    hide SameName;
    SameAsSelf(b);
    SameAsSelf(c);
    SameNameFlips(a, b);
    SameNameFlips(a, c);
    SameNameFlips(b, c);
    var x, y, z := Info(a, [Dep(b, Required), Dep(c, Required)]), Info(b, []), Info(c, []);
    var trace := [Sorting(0, [x, y, z]), Sorting(0, [y, x, z]), Sorting(1, [y, x, z]), Sorting(1, [y, z, x]),
                  Sorting(2, [y, z, x]), Sorting(3, [y, z, x])];
    assert FirstAt(x.deps, [x, y, z], 1, 1, 0) && FirstDep(x.deps, [x, y, z], 1, 1);
    assert Turned(trace[0], trace[1], 1);
    assert FirstDep(y.deps, [y, x, z], 1, 3) && Turned(trace[1], trace[2], 3);
    assert FirstAt(x.deps, [y, x, z], 2, 2, 1) && FirstDep(x.deps, [y, x, z], 2, 2);
    assert Turned(trace[2], trace[3], 2);
    assert FirstDep(z.deps, [y, z, x], 2, 3) && Turned(trace[3], trace[4], 3);
    assert FirstDep(x.deps, [y, z, x], 3, 3) && Turned(trace[4], trace[5], 3);
    assert Turns(trace, [x, y, z], [y, z, x], {});
  }

  /** What the sort leaves behind. */
  lemma SortsToSorted(s: seq<Info>, t: seq<Info>, run: set<Info>)
    requires UniqueNames(s) && SortsTo(s, t, run)
    ensures Sorted(t, run) && multiset(t) == multiset(s) && UniqueNames(t) && Elements(t) == Elements(s)
  {
    hide After, UniqueNames, Sorted, Elements;
    var n: nat :| After(n, Sorting(0, s), run) == Sorting(|s|, t);
    SortedAfter(n, s, run);
    AfterKeeps(n, Sorting(0, s), run);
  }

  /** The position of the first module found behind b1 that the module at b1 depends on. */
  method FirstDependency(base: array<Entry>, b1: nat) returns (b2: nat)
    requires b1 < base.Length
    ensures b2 == FindDep(base[b1].info.deps, Infos(base[..]), b1 + 1)
    ensures FirstDep(base[b1].info.deps, Infos(base[..]), b1 + 1, b2)
  {
    hide FirstDep;
    ghost var s := Infos(base[..]);
    var deps := base[b1].info.deps;
    FindDepFirst(deps, s, b1 + 1);
    var dep := 0;
    while dep < |deps|
      invariant dep <= |deps|
      invariant FindDep(deps, s, b1 + 1) == FindDep(deps[dep..], s, b1 + 1)
    {
      if !deps[dep].kind.Conflicts? {
        b2 := b1 + 1;
        while b2 < base.Length && !SameName(deps[dep].name, base[b2].info.name)
          invariant b2 <= base.Length
          invariant FindName(s, b1 + 1, deps[dep].name) == FindName(s, b2, deps[dep].name)
        {
          b2 := b2 + 1;
        }
        if b2 < base.Length {
          return;
        }
      }
      assert deps[dep..][1..] == deps[dep + 1..];
      dep := dep + 1;
    }
    b2 := base.Length;
  }

  /** One run of the sort leads from the first order to the second. */
  ghost predicate SortsTo(s: seq<Info>, t: seq<Info>, run: set<Info>) {
    exists n: nat :: After(n, Sorting(0, s), run) == Sorting(|s|, t)
  }

  lemma StepIs(st: Sorting, b2: nat, started: bool, run: set<Info>)
    requires st.at < |st.order| && (started <==> st.order[st.at] in run)
    requires var deps := st.order[st.at].deps;
             b2 == if !started && |deps| > 0 then FindDep(deps, st.order, st.at + 1) else |st.order|
    ensures Next(st, run) == if b2 < |st.order| then Sorting(st.at, Swapped(st.order, st.at, b2))
                             else Sorting(st.at + 1, st.order)
  {}

  method SwapBuckets(base: array<Entry>, i: nat, j: nat, ghost run: set<Info>)
    requires i < j < base.Length && Marks(base[..], run)
    modifies base
    ensures multiset(base[..]) == multiset(old(base[..]))
    ensures Infos(base[..]) == Swapped(old(Infos(base[..])), i, j)
    ensures Marks(base[..], run)
  {
    ghost var was := base[..];
    base[i], base[j] := base[j], base[i];
    assert base[..] == was[i := was[j]][j := was[i]];
    assert forall k :: 0 <= k < |was| ==> was[k].started == old(was[k].started);
  }

  /**
   The modules are put in the order the step-by-step sort gives them; with SortedAfter and
   SortEnds: a permutation in which no module still to be started precedes one it needs.
   */
  method SortModules(base: array<Entry>)
    requires UniqueNames(Infos(base[..])) && Acyclic(Infos(base[..]), Running(base[..]))
    modifies base
    ensures multiset(base[..]) == multiset(old(base[..]))
    ensures LeftBySort(old(Infos(base[..])), Infos(base[..]), old(Running(base[..])))
    ensures Sorted(Infos(base[..]), old(Running(base[..]))) && UniqueNames(Infos(base[..]))
    ensures Elements(Infos(base[..])) == Elements(old(Infos(base[..])))
    ensures forall e :: e in base[..] <==> e in old(base[..])
  {
    hide After, Acyclic, UniqueNames, FindDep, FirstDep, Needs, Next, Sorted, Elements, LeftBySort;
    ghost var s, run := Infos(base[..]), Running(base[..]);
    MarksRunning(base[..]);
    SortEnds(s, run);
    ghost var n: nat :| After(n, Sorting(0, s), run).at == |s|;
    ghost var last := After(n, Sorting(0, s), run);
    ghost var left := n;
    var b1 := 0;
    while b1 < base.Length
      invariant b1 <= base.Length
      invariant multiset(base[..]) == multiset(old(base[..]))
      invariant Marks(base[..], run)
      invariant last.at == base.Length && After(left, Sorting(b1, Infos(base[..])), run) == last
      decreases left
    {
      ghost var st := Sorting(b1, Infos(base[..]));
      var m := base[b1];
      var b2 := base.Length;
      if !m.started && |m.info.deps| > 0 {
        b2 := FirstDependency(base, b1);
      }
      StepIs(st, b2, m.started, run);
      Unfold(left, st, run);
      if b2 < base.Length {
        SwapBuckets(base, b1, b2, run);
      } else {
        b1 := b1 + 1;
      }
      left := left - 1;
    }
    Unfold(left, Sorting(b1, Infos(base[..])), run);
    SortsToSorted(s, Infos(base[..]), run);
    SortsToLeft(s, Infos(base[..]), run);
    SameMembers(base[..], old(base[..]));
  }

  lemma SameMembers(es: seq<Entry>, fs: seq<Entry>)
    requires multiset(es) == multiset(fs)
    ensures forall e :: e in es <==> e in fs
  {
    assert forall e :: e in es <==> e in multiset(es);
  }

  lemma {:induction false} Unfold(n: nat, st: Sorting, run: set<Info>)
    ensures st.at < |st.order| && After(n, st, run).at == |st.order| ==>
              n > 0 && After(n, st, run) == After(n - 1, Next(st, run), run)
    ensures st.at >= |st.order| ==> After(n, st, run) == st
  {
    if n > 0 && st.at >= |st.order| {
      Unfold(n - 1, st, run);
    }
  }

  /** The table of registered modules and the start-up calls made so far. */
  class Registry {
    var buckets: array<Entry>
    var undef: array<bool>
    var calls: seq<Entry>

    ghost predicate Valid()
      reads this, buckets, undef
    {
      undef.Length == buckets.Length && UniqueNames(Infos(buckets[..]))
    }

    /** No bucket of the table is a hole. */
    ghost predicate Whole()
      reads this, undef
    {
      forall i :: 0 <= i < undef.Length ==> !undef[i]
    }

    /** Holes hold no running module. */
    ghost predicate HolesIdle()
      reads this, buckets, undef, buckets[..]
      requires undef.Length == buckets.Length
    {
      forall i :: 0 <= i < buckets.Length && undef[i] ==> !buckets[i].started
    }

    /** The registered module of that name that has started, if any. */
    method IsStarted(lcname: string) returns (found: bool)
      requires Valid() && HolesIdle()
      ensures found <==> exists i :: 0 <= i < buckets.Length && lcname == Lower(buckets[i].info.name) && buckets[i].started
    {
      var i := 0;
      while i < buckets.Length
        invariant i <= buckets.Length
        invariant forall j :: 0 <= j < i ==> lcname == Lower(buckets[j].info.name) ==> undef[j]
      {
        if !undef[i] && lcname == Lower(buckets[i].info.name) {
          found := buckets[i].started;
          OnlyOne(buckets[..], i, lcname);
          return;
        }
        i := i + 1;
      }
      found := false;
    }

    /** Starts one module unless a module it requires is missing or not started. */
    method StartupModule(entry: Entry, ghost k: nat) returns (ok: bool)
      requires Valid() && HolesIdle() && k < buckets.Length && buckets[k] == entry && !undef[k]
      modifies entry`started, this`calls
      ensures var run := old(Running(buckets[..]));
              ok == (entry.info in run || AllMet(entry.info, Elements(Infos(buckets[..])), run + {entry.info}))
      ensures entry.started == ok
      ensures calls == if ok && !old(entry.started) then old(calls) + [entry] else old(calls)
    {
      hide UniqueNames, Elements, AllMet, Met;
      ghost var es, run, m := buckets[..], Running(buckets[..]), entry.info;
      MarksRunning(es);
      Others(es, k);
      if entry.started {
        return true;
      }
      entry.started := true;
      var dep := 0;
      while dep < |entry.info.deps|
        invariant calls == old(calls)
        invariant dep <= |m.deps| && Marks(es, run + {m}) && HolesIdle() && entry.started
        invariant forall i :: 0 <= i < dep && m.deps[i].kind.Required? ==> Met(m.deps[i], Elements(Infos(es)), run + {m})
      {
        if entry.info.deps[dep].kind.Required? {
          var lcname := Lower(entry.info.deps[dep].name);
          var found := IsStarted(lcname);
          FoundMet(es, m.deps[dep], run + {m}, found);
          if !found {
            entry.started := false;
            NotAllMet(m, dep, Elements(Infos(es)), run + {m});
            return false;
          }
        }
        dep := dep + 1;
      }
      AllAreMet(m, Elements(Infos(es)), run + {m});
      calls := calls + [entry];
      return true;
    }

    /** The turn of the i-th bucket: its module is started, or dropped from the table. */
    method TakeTurn(i: nat, entry: Entry, ghost es: seq<Entry>, ghost before: set<Info>, ghost now: set<Info>)
      requires Valid() && i < buckets.Length && es == buckets[..] && es[i] == entry && Dropped(es, i)
      requires Marks(es, before) && before <= Elements(Infos(es))
      requires now == if AllMet(es[i].info, Elements(Infos(es)), before + {es[i].info}) then before + {es[i].info} else before
      modifies this`calls, undef, entry`started
      ensures Dropped(es, i + 1) && Marks(es, now)
      ensures calls == if es[i].info !in before && es[i].info in now then old(calls) + [es[i]] else old(calls)
    {
      hide UniqueNames, Elements, AllMet, Infos, Running;
      MarksAre(es, before);
      Others(es, i);
      var ok := StartupModule(entry, i);
      if !ok {
        undef[i] := true;
      }
    }

    /** One pass over the table, in order. */
    method ApplyStartup(ghost es: seq<Entry>, ghost run: set<Info>, ghost frame: set<Entry>)
      requires Valid() && Whole() && es == buckets[..] && Running(es) == run && forall e :: e in es ==> e in frame
      modifies this`calls, undef, frame
      ensures var s := Infos(es); var now := RunningAt(s, |s|, run);
              && run <= now <= Elements(s) && Marks(es, now)
              && Infos(calls) == old(Infos(calls)) + Calls(s, |s|, run)
      ensures Dropped(es, |es|)
    {
      hide UniqueNames, Elements, AllMet, Infos, RunningAt, Calls, Marks, Running;
      ghost var s := Infos(es);
      RunningWithin(es);
      MarksRunning(es);
      RunningStart(s, run);
      var i := 0;
      while i < buckets.Length
        invariant i <= buckets.Length
        invariant run <= RunningAt(s, i, run) <= Elements(s) && Marks(es, RunningAt(s, i, run))
        invariant Dropped(es, i)
        invariant Infos(calls) == old(Infos(calls)) + Calls(s, i, run)
      {
        ghost var before, was := RunningAt(s, i, run), calls;
        assert es[i] in es;
        RunningStep(s, i, run);
        if !undef[i] {
          TakeTurn(i, buckets[i], es, before, RunningAt(s, i + 1, run));
        }
        InfosGrow(was, es[i]);
        i := i + 1;
      }
    }

    /** Of the first k buckets those without a running module are holes, the others none. */
    ghost predicate Dropped(es: seq<Entry>, k: nat)
      reads undef, es, this`undef
      requires k <= |es| == undef.Length
    {
      && (forall j :: 0 <= j < k ==> (undef[j] <==> !es[j].started))
      && (forall j :: k <= j < |es| ==> !undef[j])
    }

    method StartupModules()
      requires Valid() && Whole() && Acyclic(Infos(buckets[..]), Running(buckets[..]))
      modifies this`calls, undef, buckets, buckets[..]
      ensures Valid() && multiset(buckets[..]) == multiset(old(buckets[..]))
      ensures StartedUnlessBroken(buckets[..], Elements(old(Infos(buckets[..]))), old(Running(buckets[..])))
      ensures Dropped(buckets[..], buckets.Length)
      ensures LeftBySort(old(Infos(buckets[..])), Infos(buckets[..]), old(Running(buckets[..])))
      ensures exists made :: Infos(calls) == old(Infos(calls)) + made && InOrder(made) && InTableOrder(made, Infos(buckets[..]))
                && Running(buckets[..]) == old(Running(buckets[..])) + Elements(made)
    {
      hide UniqueNames, Elements, AllMet, Broken, Acyclic, LeftBySort, InOrder, InTableOrder, RunningAt, Calls, Infos, StartedUnlessBroken, Sorted, Marks, Dropped;
      ghost var run := Running(buckets[..]);
      ghost var frame := set e | e in buckets[..];
      SortModules(buckets);
      ghost var es, s := buckets[..], Infos(buckets[..]);
      assert Running(es) == run;
      ApplyStartup(es, run, frame);
      MarksAre(es, RunningAt(s, |s|, run));
      AreStarted(es, run);
      CallsInOrder(s, run);
      CallsInTable(s, |s|, run);
      CallsAre(s, |s|, run);
    }
  }

  /** The modules stand in that order in the table. */
  ghost predicate InTableOrder(made: seq<Info>, s: seq<Info>) {
    forall i, j, a, b :: 0 <= i < j < |made| && 0 <= a < |s| && 0 <= b < |s| && s[a] == made[i] && s[b] == made[j] ==> a < b
  }

  lemma {:induction false} CallsInTable(s: seq<Info>, k: nat, run: set<Info>)
    requires k <= |s| && UniqueNames(s)
    ensures InTableOrder(Calls(s, k, run), s)
    decreases k
  {
    hide AllMet, RunningAt, UniqueNames;
    if k > 0 {
      CallsInTable(s, k - 1, run);
      CallsAre(s, k - 1, run);
      UniqueDistinct(s);
      var was, made := Calls(s, k - 1, run), Calls(s, k, run);
      forall i, j, a, b | 0 <= i < j < |made| && 0 <= a < |s| && 0 <= b < |s| && s[a] == made[i] && s[b] == made[j]
        ensures a < b
      {
        if j == |was| {
          assert made[i] == was[i] && was[i] in was && Late(was[i], s, k - 1, run);
        }
      }
    }
  }

  lemma RunningStart(s: seq<Info>, run: set<Info>)
    ensures RunningAt(s, 0, run) == run && Calls(s, 0, run) == []
  {}

  lemma RunningStep(s: seq<Info>, i: nat, run: set<Info>)
    requires i < |s| && RunningAt(s, i, run) <= Elements(s)
    ensures var before, now := RunningAt(s, i, run), RunningAt(s, i + 1, run);
            && now == (if AllMet(s[i], Elements(s), before + {s[i]}) then before + {s[i]} else before)
            && before <= now <= Elements(s)
            && Calls(s, i + 1, run) == Calls(s, i, run) + (if s[i] !in before && s[i] in now then [s[i]] else [])
  {
    hide AllMet;
  }

  /** Exactly the modules that are not broken have started. */
  ghost predicate StartedUnlessBroken(es: seq<Entry>, all: set<Info>, run: set<Info>)
    reads es
  {
    forall i :: 0 <= i < |es| ==> (es[i].started <==> !Broken(es[i].info, all, run))
  }

  lemma AreStarted(es: seq<Entry>, run: set<Info>)
    requires var s := Infos(es); UniqueNames(s) && Sorted(s, run) && Marks(es, RunningAt(s, |s|, run))
    ensures StartedUnlessBroken(es, Elements(Infos(es)), run)
  {
    hide UniqueNames, Sorted, RunningAt, Broken;
    var s := Infos(es);
    forall j | 0 <= j < |es| ensures es[j].started <==> !Broken(es[j].info, Elements(s), run) {
      assert s[j] in s;
      StartedExactly(s, run, s[j]);
    }
  }

  lemma InfosGrow(es: seq<Entry>, e: Entry)
    ensures Infos(es + [e]) == Infos(es) + [e.info]
  {}

  /** No module of the list needs a later one, and none is repeated. */
  ghost predicate InOrder(s: seq<Info>) {
    forall i, j :: 0 <= i < j < |s| ==> !Needs(s[i], s[j]) && s[i] != s[j]
  }

  lemma CallsInOrder(s: seq<Info>, run: set<Info>)
    requires UniqueNames(s) && Sorted(s, run)
    ensures InOrder(Calls(s, |s|, run))
  {
    hide UniqueNames, Sorted, Needs, Calls;
    CallsOrdered(s, |s|, run);
  }

  lemma RunningWithin(es: seq<Entry>)
    ensures Running(es) <= Elements(Infos(es))
  {
    forall m | m in Running(es) ensures m in Elements(Infos(es)) {
      var e :| e in es && e.started && e.info == m;
      var i :| 0 <= i < |es| && es[i] == e;
      assert Infos(es)[i] == m;
    }
  }

  lemma MarksAre(es: seq<Entry>, run: set<Info>)
    requires Marks(es, run) && run <= Elements(Infos(es))
    ensures Running(es) == run
  {
    forall m | m in run ensures m in Running(es) {
      var i :| 0 <= i < |es| && Infos(es)[i] == m;
      assert es[i] in es && es[i].started;
    }
    forall m | m in Running(es) ensures m in run {
      var e :| e in es && e.started && e.info == m;
      var i :| 0 <= i < |es| && es[i] == e;
    }
  }

  lemma Others(es: seq<Entry>, k: nat)
    requires k < |es| && UniqueNames(Infos(es))
    ensures forall i :: 0 <= i < |es| && i != k ==> es[i] != es[k] && es[i].info != es[k].info
  {
    UniqueDistinct(Infos(es));
    forall i | 0 <= i < |es| && i != k ensures es[i].info != es[k].info {
      assert Infos(es)[i] != Infos(es)[k];
    }
  }

  lemma FoundMet(es: seq<Entry>, d: Dep, run: set<Info>, found: bool)
    requires Marks(es, run)
    requires found <==> exists i :: 0 <= i < |es| && Lower(d.name) == Lower(es[i].info.name) && es[i].started
    ensures found <==> Met(d, Elements(Infos(es)), run)
  {
    var s := Infos(es);
    if found {
      var i :| 0 <= i < |es| && Lower(d.name) == Lower(es[i].info.name) && es[i].started;
      assert s[i] in Elements(s) && SameName(d.name, s[i].name);
    }
    if Met(d, Elements(s), run) {
      var r :| r in Elements(s) && SameName(d.name, r.name) && r in run;
      var i :| 0 <= i < |s| && s[i] == r;
      assert es[i].started;
    }
  }

  lemma NotAllMet(m: Info, i: nat, all: set<Info>, run: set<Info>)
    requires i < |m.deps| && m.deps[i].kind.Required? && !Met(m.deps[i], all, run)
    ensures !AllMet(m, all, run)
  {}

  lemma AllAreMet(m: Info, all: set<Info>, run: set<Info>)
    requires forall i :: 0 <= i < |m.deps| && m.deps[i].kind.Required? ==> Met(m.deps[i], all, run)
    ensures AllMet(m, all, run)
  {}

  lemma OnlyOne(es: seq<Entry>, i: nat, lcname: string)
    requires i < |es| && UniqueNames(Infos(es)) && lcname == Lower(es[i].info.name)
    ensures forall j :: 0 <= j < |es| && lcname == Lower(es[j].info.name) ==> j == i
  {
    forall j | 0 <= j < |es| && lcname == Lower(es[j].info.name) ensures j == i {
      assert SameName(Infos(es)[i].name, Infos(es)[j].name) && SameName(Infos(es)[j].name, Infos(es)[i].name);
    }
  }
}
