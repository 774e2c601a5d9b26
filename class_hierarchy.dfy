/**
 * Class-hierarchy validation: duplicate class names, superclasses that
 * name no class, and inheritance cycles, checked in that order.
 *
 * The classes are kept in a hash map whose iteration order the program
 * does not fix; that order is a parameter `order` here, and every
 * property is proved for all orders.
 */
module ClassHierarchy {
  import opened Wrappers
  import opened LatteAst

  datatype HierarchyError =
    | MultipleClasses(name: Ident)
    | UndefinedSuperclass(name: Ident)
    | Cycle

  /** The diagnostic text of each error. */
  function Message(e: HierarchyError): string
  {
    match e
    case MultipleClasses(n) => "Multiple classes with name: " + n
    case UndefinedSuperclass(n) => "Cannot inherit from " + n + ": undefined identifier"
    case Cycle => "Cycle in the class hierarchy"
  }

  /** The class definitions of a program, in program order. */
  function ClassDefs(defs: seq<Def>): (r: seq<Class>)
    ensures forall c :: c in r <==> DClass(c) in defs
    ensures |r| <= |defs|
  {
    if |defs| == 0 then []
    else
      var rest := ClassDefs(defs[1..]);
      assert forall d :: d in defs <==> d == defs[0] || d in defs[1..];
      if defs[0].DClass? then [defs[0].c] + rest else rest
  }

  predicate NamesDistinct(cs: seq<Class>)
  {
    forall i, j :: 0 <= i < j < |cs| ==> cs[i].name != cs[j].name
  }

  function Names(cs: seq<Class>): set<Ident>
  {
    set c | c in cs :: c.name
  }

  /** The map built by inserting the classes in order; a later class replaces an earlier one. */
  function Table(cs: seq<Class>): (t: map<Ident, Class>)
    ensures t.Keys == Names(cs)
    ensures forall x :: x in t ==> t[x].name == x
  {
    if |cs| == 0 then map[]
    else
      var last := cs[|cs| - 1];
      assert forall c :: c in cs <==> c in cs[..|cs| - 1] || c == last;
      Table(cs[..|cs| - 1])[last.name := last]
  }

  /**
   * `get_classes`: fails on the first class whose name was already seen,
   * otherwise returns the table of all classes by name.
   */
  method GetClasses(cs: seq<Class>) returns (r: Result<map<Ident, Class>, HierarchyError>)
    ensures r.Ok? <==> NamesDistinct(cs)
    ensures r.Ok? ==> r.value == Table(cs) && forall i :: 0 <= i < |cs| ==> r.value[cs[i].name] == cs[i]
    ensures r.Err? ==> exists j :: (0 <= j < |cs| && NamesDistinct(cs[..j])
      && cs[j].name in Names(cs[..j]) && r.error == MultipleClasses(cs[j].name))
  {
    var classes: map<Ident, Class> := map[];
    var k := 0;
    while k < |cs|
      invariant 0 <= k <= |cs|
      invariant NamesDistinct(cs[..k])
      invariant classes == Table(cs[..k])
      invariant Stores(classes, cs, k)
    {
      if cs[k].name in classes {
        r := Err(MultipleClasses(cs[k].name));
        DuplicateName(cs, k);
        return;
      }
      DistinctSnoc(cs, k);
      TableSnoc(cs, k);
      StoresSnoc(classes, cs, k);
      classes := classes[cs[k].name := cs[k]];
      k := k + 1;
    }
    assert cs[..k] == cs;
    r := Ok(classes);
  }

  /** Each of the first `k` classes is stored under its own name. */
  ghost predicate Stores(t: map<Ident, Class>, cs: seq<Class>, k: nat)
    requires k <= |cs|
  {
    forall i :: 0 <= i < k ==> cs[i].name in t && t[cs[i].name] == cs[i]
  }

  lemma StoresSnoc(t: map<Ident, Class>, cs: seq<Class>, k: nat)
    requires k < |cs| && Stores(t, cs, k) && cs[k].name !in t
    ensures Stores(t[cs[k].name := cs[k]], cs, k + 1)
  {
  }

  lemma TableSnoc(cs: seq<Class>, k: nat)
    requires k < |cs|
    ensures Table(cs[..k + 1]) == Table(cs[..k])[cs[k].name := cs[k]]
  {
    assert cs[..k + 1][..k] == cs[..k];
  }

  lemma DistinctSnoc(cs: seq<Class>, k: nat)
    requires k < |cs| && NamesDistinct(cs[..k]) && cs[k].name !in Names(cs[..k])
    ensures NamesDistinct(cs[..k + 1])
  {
    forall i | 0 <= i < k ensures cs[i].name != cs[k].name {
      assert cs[..k][i] in cs[..k];
    }
  }

  lemma DuplicateName(cs: seq<Class>, k: nat)
    requires k < |cs| && cs[k].name in Names(cs[..k])
    ensures !NamesDistinct(cs)
  {
    var c :| c in cs[..k] && c.name == cs[k].name;
    var i :| 0 <= i < k && cs[..k][i] == c;
    assert cs[i].name == cs[k].name;
  }

  /** Every superclass named in the table is itself in the table. */
  ghost predicate Closed(classes: map<Ident, Class>)
  {
    forall x :: x in classes && classes[x].superclass.Some? ==> classes[x].superclass.value in classes
  }

  /** An iteration order of a hash map: each key exactly once. */
  ghost predicate Enumerates(order: seq<Ident>, keys: set<Ident>)
  {
    (forall i, j :: 0 <= i < j < |order| ==> order[i] != order[j])
    && (forall x :: x in order <==> x in keys)
  }

  /** `check_superclasses`: the first class, in `order`, whose superclass is undefined. */
  function CheckSuperclasses(classes: map<Ident, Class>, order: seq<Ident>): Result<(), HierarchyError>
    requires forall x :: x in order ==> x in classes
  {
    if |order| == 0 then Ok(())
    else
      var c := classes[order[0]];
      if c.superclass.Some? && c.superclass.value !in classes then Err(UndefinedSuperclass(c.superclass.value))
      else CheckSuperclasses(classes, order[1..])
  }

  /** The superclass check passes exactly when every superclass is defined, whatever the order. */
  lemma {:induction false} CheckSuperclassesSpec(classes: map<Ident, Class>, order: seq<Ident>)
    requires Enumerates(order, classes.Keys)
    ensures CheckSuperclasses(classes, order).Ok? <==> Closed(classes)
    ensures CheckSuperclasses(classes, order).Err? ==>
      exists x :: x in classes && classes[x].superclass.Some?
        && classes[x].superclass.value !in classes
        && CheckSuperclasses(classes, order).error == UndefinedSuperclass(classes[x].superclass.value)
  {
    CheckSuperclassesPrefix(classes, order);
  }

  lemma {:induction false} CheckSuperclassesPrefix(classes: map<Ident, Class>, order: seq<Ident>)
    requires forall x :: x in order ==> x in classes
    ensures CheckSuperclasses(classes, order).Ok? <==>
      forall x :: x in order && classes[x].superclass.Some? ==> classes[x].superclass.value in classes
    ensures CheckSuperclasses(classes, order).Err? ==>
      exists x :: x in order && classes[x].superclass.Some?
        && classes[x].superclass.value !in classes
        && CheckSuperclasses(classes, order).error == UndefinedSuperclass(classes[x].superclass.value)
  {
    if |order| > 0 {
      CheckSuperclassesPrefix(classes, order[1..]);
      assert forall x :: x in order <==> x == order[0] || x in order[1..];
    }
  }

  /** The ancestor `n` steps above `x`, or None past the root. */
  function Iter(classes: map<Ident, Class>, x: Ident, n: nat): (r: Option<Ident>)
    requires Closed(classes) && x in classes
    ensures r.Some? ==> r.value in classes
  {
    if n == 0 then Some(x)
    else
      match Iter(classes, x, n - 1)
      case None => None
      case Some(y) => classes[y].superclass
  }

  /** Following the superclass links from `x` leads back to `x`. */
  ghost predicate OnCycle(classes: map<Ident, Class>, x: Ident)
    requires Closed(classes) && x in classes
  {
    exists n: nat :: n >= 1 && Iter(classes, x, n) == Some(x)
  }

  ghost predicate HasCycle(classes: map<Ident, Class>)
    requires Closed(classes)
  {
    exists x :: x in classes && OnCycle(classes, x)
  }

  /** Following the superclass links from `x` ends at a class without a superclass. */
  ghost predicate ReachesRoot(classes: map<Ident, Class>, x: Ident)
    requires Closed(classes) && x in classes
  {
    exists n: nat :: Iter(classes, x, n) == None
  }

  /** Walking `a` then `b` steps is walking `a + b` steps. */
  lemma {:induction false} IterAdd(classes: map<Ident, Class>, x: Ident, a: nat, b: nat)
    requires Closed(classes) && x in classes
    ensures Iter(classes, x, a + b) ==
      match Iter(classes, x, a)
      case None => None
      case Some(y) => Iter(classes, y, b)
    decreases b
  {
    if b > 0 {
      IterAdd(classes, x, a, b - 1);
    }
  }

  /** Past the root there is nothing. */
  lemma {:induction false} IterNoneStays(classes: map<Ident, Class>, x: Ident, a: nat, b: nat)
    requires Closed(classes) && x in classes
    requires a <= b && Iter(classes, x, a) == None
    ensures Iter(classes, x, b) == None
    decreases b - a
  {
    if a < b {
      IterNoneStays(classes, x, a, b - 1);
    }
  }

  /** A class on a cycle never reaches a root. */
  lemma CycleNoRoot(classes: map<Ident, Class>, x: Ident)
    requires Closed(classes) && x in classes && OnCycle(classes, x)
    ensures !ReachesRoot(classes, x)
  {
    var n: nat :| n >= 1 && Iter(classes, x, n) == Some(x);
    forall m: nat ensures Iter(classes, x, m) != None {
      IterPeriodic(classes, x, n, m);
    }
  }

  lemma {:induction false} IterPeriodic(classes: map<Ident, Class>, x: Ident, n: nat, m: nat)
    requires Closed(classes) && x in classes
    requires n >= 1 && Iter(classes, x, n) == Some(x)
    ensures Iter(classes, x, m) != None
    decreases m
  {
    if m < n {
      if Iter(classes, x, m) == None {
        IterNoneStays(classes, x, m, n);
      }
    } else {
      IterPeriodic(classes, x, n, m - n);
      IterAdd(classes, x, n, m - n);
    }
  }

  /** A class whose ancestor reaches a root reaches it too. */
  lemma ReachVia(classes: map<Ident, Class>, a: Ident, k: nat, b: Ident)
    requires Closed(classes) && a in classes && b in classes
    requires Iter(classes, a, k) == Some(b) && ReachesRoot(classes, b)
    ensures ReachesRoot(classes, a)
  {
    var n: nat :| Iter(classes, b, n) == None;
    IterAdd(classes, a, k, n);
  }

  /** Two visits of the same class in one walk close a cycle through it. */
  lemma Revisit(classes: map<Ident, Class>, start: Ident, j: nat, k: nat, x: Ident)
    requires Closed(classes) && start in classes
    requires j < k && Iter(classes, start, j) == Some(x) && Iter(classes, start, k) == Some(x)
    ensures x in classes && OnCycle(classes, x) && HasCycle(classes)
  {
    IterAdd(classes, start, j, k - j);
    assert Iter(classes, x, k - j) == Some(x);
  }

  /**
   * `visit`: walks up from `c`, marking every class with `step`, until it
   * meets a marked class or a root. Meeting a class marked in the same
   * walk is a cycle; one marked by an earlier walk ends the walk.
   *
   * Ghost `start` and `k` locate `c` as the `k`-th ancestor of the class
   * the walk began at.
   */
  method Visit(classes: map<Ident, Class>, c: Class, step: nat, visited: map<Ident, nat>,
               ghost start: Ident, ghost k: nat)
    returns (visited': map<Ident, nat>, r: Result<(), HierarchyError>)
    requires Closed(classes) && forall x :: x in classes ==> classes[x].name == x
    requires c.name in classes && classes[c.name] == c && start in classes
    requires Iter(classes, start, k) == Some(c.name)
    requires visited.Keys <= classes.Keys
    requires forall v :: v in visited ==> visited[v] <= step
    requires forall v :: v in visited && visited[v] < step ==> ReachesRoot(classes, v)
    requires forall v :: v in visited && visited[v] == step ==> OnPathBefore(classes, start, k, v)
    ensures visited.Keys <= visited'.Keys <= classes.Keys && c.name in visited'
    ensures forall v :: v in visited ==> visited'[v] == visited[v]
    ensures forall v :: v in visited' && v !in visited ==> visited'[v] == step
    ensures r.Ok? ==> forall v :: v in visited' ==> ReachesRoot(classes, v)
    ensures r.Err? ==> r.error == Cycle && HasCycle(classes)
    decreases classes.Keys - visited.Keys
  {
    if c.name in visited {
      visited' := visited;
      if step == visited[c.name] {
        assert OnPathBefore(classes, start, k, c.name);
        ghost var j: nat :| j < k && Iter(classes, start, j) == Some(c.name);
        Revisit(classes, start, j, k, c.name);
        r := Err(Cycle);
        return;
      }
      PathReach(classes, visited, step, start, k, c.name);
      r := Ok(());
      return;
    }
    var marked := visited[c.name := step];
    if c.superclass.None? {
      assert Iter(classes, c.name, 1) == None;
      assert ReachesRoot(classes, c.name);
      PathReach(classes, marked, step, start, k, c.name);
      visited' := marked;
      r := Ok(());
      return;
    }
    var s := c.superclass.value;
    assert Iter(classes, start, k + 1) == Some(s);
    forall v | v in marked && marked[v] == step ensures OnPathBefore(classes, start, k + 1, v) {
      if v == c.name {
        assert Iter(classes, start, k) == Some(v);
      } else {
        assert OnPathBefore(classes, start, k, v);
      }
    }
    assert classes.Keys - marked.Keys < classes.Keys - visited.Keys by {
      assert c.name in classes.Keys - visited.Keys;
      assert c.name !in classes.Keys - marked.Keys;
    }
    visited', r := Visit(classes, classes[s], step, marked, start, k + 1);
  }

  /** `v` is one of the first `n` classes of the walk from `start`. */
  ghost predicate OnPathBefore(classes: map<Ident, Class>, start: Ident, n: nat, v: Ident)
    requires Closed(classes) && start in classes
  {
    exists j: nat :: j < n && Iter(classes, start, j) == Some(v)
  }

  /**
   * Marks of the current walk lie on its path up to the `k`-th ancestor
   * `x`; when `x` reaches a root, so do they.
   */
  lemma PathReach(classes: map<Ident, Class>, visited: map<Ident, nat>, step: nat, start: Ident, k: nat, x: Ident)
    requires Closed(classes) && start in classes && x in classes
    requires Iter(classes, start, k) == Some(x) && ReachesRoot(classes, x)
    requires forall v :: v in visited && visited[v] == step ==> v == x || OnPathBefore(classes, start, k, v)
    ensures forall v :: v in visited && visited[v] == step ==> v in classes && ReachesRoot(classes, v)
  {
    forall v | v in visited && visited[v] == step ensures v in classes && ReachesRoot(classes, v) {
      if v != x {
        var j: nat :| j < k && Iter(classes, start, j) == Some(v);
        IterAdd(classes, start, j, k - j);
        ReachVia(classes, v, k - j, x);
      }
    }
  }

  /**
   * `check_hierarchy`: one walk per class, in `order`, the walk's index
   * being its mark. It fails exactly when the superclass links contain a
   * cycle, whatever the order.
   */
  method CheckHierarchy(classes: map<Ident, Class>, order: seq<Ident>) returns (r: Result<(), HierarchyError>)
    requires Closed(classes) && forall x :: x in classes ==> classes[x].name == x
    requires Enumerates(order, classes.Keys)
    ensures r.Err? <==> HasCycle(classes)
    ensures r.Err? ==> r.error == Cycle
  {
    var visited: map<Ident, nat> := map[];
    var i := 0;
    while i < |order|
      invariant 0 <= i <= |order|
      invariant Walked(classes, visited, i)
      invariant forall j :: 0 <= j < i ==> order[j] in visited
    {
      var c := classes[order[i]];
      assert Iter(classes, order[i], 0) == Some(c.name);
      ghost var before := visited;
      visited, r := Visit(classes, c, i, visited, order[i], 0);
      if r.Err? {
        return;
      }
      WalkedNext(classes, before, visited, i);
      assert c.name == order[i];
      PrefixVisited(order, before, visited, i);
      i := i + 1;
    }
    r := Ok(());
    AllWalked(classes, visited, order);
  }

  /** The marks of the walks so far: all below `i`, and every marked class reaches a root. */
  ghost predicate Walked(classes: map<Ident, Class>, visited: map<Ident, nat>, i: nat)
    requires Closed(classes)
  {
    visited.Keys <= classes.Keys &&
    forall v :: v in visited ==> visited[v] < i && ReachesRoot(classes, v)
  }

  lemma WalkedNext(classes: map<Ident, Class>, before: map<Ident, nat>, visited: map<Ident, nat>, i: nat)
    requires Closed(classes) && Walked(classes, before, i)
    requires before.Keys <= visited.Keys <= classes.Keys
    requires forall v :: v in before ==> visited[v] == before[v]
    requires forall v :: v in visited && v !in before ==> visited[v] == i
    requires forall v :: v in visited ==> ReachesRoot(classes, v)
    ensures Walked(classes, visited, i + 1)
  {
  }

  lemma PrefixVisited(order: seq<Ident>, before: map<Ident, nat>, visited: map<Ident, nat>, i: nat)
    requires i < |order| && before.Keys <= visited.Keys && order[i] in visited
    requires forall j :: 0 <= j < i ==> order[j] in before
    ensures forall j :: 0 <= j < i + 1 ==> order[j] in visited
  {
  }

  lemma AllWalked(classes: map<Ident, Class>, visited: map<Ident, nat>, order: seq<Ident>)
    requires Closed(classes) && Enumerates(order, classes.Keys)
    requires Walked(classes, visited, |order|)
    requires forall j :: 0 <= j < |order| ==> order[j] in visited
    ensures !HasCycle(classes)
  {
    assert classes.Keys <= visited.Keys by {
      forall x | x in classes ensures x in visited {
        assert x in order;
        var j :| 0 <= j < |order| && order[j] == x;
      }
    }
    NoCycle(classes, visited);
  }

  /** When every class reaches a root, no class lies on a cycle. */
  lemma NoCycle(classes: map<Ident, Class>, visited: map<Ident, nat>)
    requires Closed(classes) && classes.Keys <= visited.Keys
    requires forall v :: v in visited && v in classes ==> ReachesRoot(classes, v)
    ensures !HasCycle(classes)
  {
    forall x | x in classes && OnCycle(classes, x) ensures false {
      CycleNoRoot(classes, x);
    }
  }

  /**
   * `check_class_hierarchy`: duplicates first, then undefined superclasses,
   * then cycles; `order` is the iteration order of the class table.
   */
  method CheckClassHierarchy(cs: seq<Class>, order: seq<Ident>) returns (r: Result<(), HierarchyError>)
    requires Enumerates(order, Names(cs))
    ensures !NamesDistinct(cs) ==> r.Err? && r.error.MultipleClasses?
    ensures NamesDistinct(cs) && !Closed(Table(cs)) ==>
      r.Err? && r.error.UndefinedSuperclass? && r.error.name !in Names(cs)
    ensures NamesDistinct(cs) && Closed(Table(cs)) ==> (r.Err? <==> HasCycle(Table(cs)))
    ensures NamesDistinct(cs) && Closed(Table(cs)) && r.Err? ==> r.error == Cycle
  {
    var got := GetClasses(cs);
    if got.Err? {
      return Err(got.error);
    }
    var classes := got.value;
    CheckSuperclassesSpec(classes, order);
    var sup := CheckSuperclasses(classes, order);
    if sup.Err? {
      return sup;
    }
    r := CheckHierarchy(classes, order);
  }

  /** `class_hierarchy_check::run`: only the class definitions take part. */
  method Run(p: Program, order: seq<Ident>) returns (r: Result<(), HierarchyError>)
    requires Enumerates(order, Names(ClassDefs(p.defs)))
    ensures var cs := ClassDefs(p.defs);
      && (!NamesDistinct(cs) ==> r.Err? && r.error.MultipleClasses?)
      && (NamesDistinct(cs) && !Closed(Table(cs)) ==> r.Err? && r.error.UndefinedSuperclass?)
      && (NamesDistinct(cs) && Closed(Table(cs)) ==> (r.Err? <==> HasCycle(Table(cs))))
  {
    r := CheckClassHierarchy(ClassDefs(p.defs), order);
  }
}
