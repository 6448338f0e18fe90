/**
  The list walks the exporter's edits are made of, on the records as values:
  update every record that matches, find the last or the first record that
  matches, take one element out of a record's children.
*/
module Edits {
  import opened Wrappers
  import opened PyCore

  // ---------------------------------------------------------------------
  // Updating every match

  /** `for x in xs: if p(x): <update x in place>`, as the list it leaves behind. */
  function MapWhere<T>(xs: seq<T>, p: T -> bool, f: T -> T): (ys: seq<T>)
    ensures |ys| == |xs|
    ensures forall i | 0 <= i < |xs| :: ys[i] == (if p(xs[i]) then f(xs[i]) else xs[i])
  {
    seq(|xs|, i requires 0 <= i < |xs| => if p(xs[i]) then f(xs[i]) else xs[i])
  }

  method UpdateWhere<T>(xs: seq<T>, p: T -> bool, f: T -> T) returns (ys: seq<T>)
    ensures ys == MapWhere(xs, p, f)
  {
    ys := [];
    var i := 0;
    while i < |xs|
      invariant 0 <= i <= |xs| && |ys| == i
      invariant forall j | 0 <= j < i :: ys[j] == (if p(xs[j]) then f(xs[j]) else xs[j])
    {
      var x := xs[i];
      if p(x) {
        x := f(x);
      }
      ys := ys + [x];
      i := i + 1;
    }
  }

  /** The same loop where updating an element can raise: the first error ends it. */
  function TryMapWhere<T>(xs: seq<T>, p: T -> bool, f: T -> Result<T, Fault>): (r: Result<seq<T>, Fault>)
    ensures r.Ok? <==> forall i | 0 <= i < |xs| && p(xs[i]) :: f(xs[i]).Ok?
    ensures r.Ok? ==> (|r.value| == |xs| &&
      forall i | 0 <= i < |xs| :: r.value[i] == (if p(xs[i]) then f(xs[i]).value else xs[i]))
    decreases |xs|
  {
    if xs == [] then Ok([])
    else
      var x :- if p(xs[0]) then f(xs[0]) else Ok(xs[0]);
      var rest :- TryMapWhere(xs[1..], p, f);
      assert forall i | 1 <= i < |xs| :: xs[i] == xs[1..][i - 1];
      Ok([x] + rest)
  }

  /** The first element whose update raises decides the error. */
  lemma {:induction false} TryMapWhereFirstErr<T>(xs: seq<T>, p: T -> bool, f: T -> Result<T, Fault>, i: nat)
    requires i < |xs| && p(xs[i]) && f(xs[i]).Err?
    requires forall j | 0 <= j < i && p(xs[j]) :: f(xs[j]).Ok?
    ensures TryMapWhere(xs, p, f) == Err(f(xs[i]).error)
    decreases i
  {
    if i > 0 {
      assert forall j | 0 <= j < i - 1 :: xs[1..][j] == xs[j + 1];
      TryMapWhereFirstErr(xs[1..], p, f, i - 1);
    }
  }

  method TryUpdateWhere<T>(xs: seq<T>, p: T -> bool, f: T -> Result<T, Fault>) returns (r: Result<seq<T>, Fault>)
    ensures r == TryMapWhere(xs, p, f)
  {
    var ys := [];
    var i := 0;
    while i < |xs|
      invariant 0 <= i <= |xs| && |ys| == i
      invariant forall j | 0 <= j < i && p(xs[j]) :: f(xs[j]).Ok?
      invariant forall j | 0 <= j < i :: ys[j] == (if p(xs[j]) then f(xs[j]).value else xs[j])
    {
      var x := xs[i];
      if p(x) {
        var y := f(x);
        if y.Err? {
          TryMapWhereFirstErr(xs, p, f, i);
          return Err(y.error);
        }
        x := y.value;
      }
      ys := ys + [x];
      i := i + 1;
    }
    var whole := TryMapWhere(xs, p, f);
    assert whole.Ok? && whole.value == ys;
    return Ok(ys);
  }

  // ---------------------------------------------------------------------
  // The last match: `for i in range(len(xs)): if p(xs[i]): member = i`

  function LastIndex<T>(xs: seq<T>, p: T -> bool): (r: Option<nat>)
    ensures r.Some? ==> (r.value < |xs| && p(xs[r.value]) && forall j | r.value < j < |xs| :: !p(xs[j]))
    ensures r.None? ==> forall j | 0 <= j < |xs| :: !p(xs[j])
    decreases |xs|
  {
    if xs == [] then None
    else if p(xs[|xs| - 1]) then Some(|xs| - 1)
    else LastIndex(xs[..|xs| - 1], p)
  }

  /**
    The last child matching `cm` of a parent matching `pm`, parents and
    children taken in order, as (parent index, child index).
  */
  function LastPair<P, C>(ps: seq<P>, pm: P -> bool, kids: P -> seq<C>, cm: C -> bool): (r: Option<(nat, nat)>)
    ensures r.Some? ==> (r.value.0 < |ps| && pm(ps[r.value.0]) && r.value.1 < |kids(ps[r.value.0])| &&
      cm(kids(ps[r.value.0])[r.value.1]) &&
      (forall j | r.value.1 < j < |kids(ps[r.value.0])| :: !cm(kids(ps[r.value.0])[j])) &&
      (forall i, j | r.value.0 < i < |ps| && pm(ps[i]) && 0 <= j < |kids(ps[i])| :: !cm(kids(ps[i])[j])))
    ensures r.None? ==> forall i, j | 0 <= i < |ps| && pm(ps[i]) && 0 <= j < |kids(ps[i])| :: !cm(kids(ps[i])[j])
    decreases |ps|
  {
    if ps == [] then None
    else
      var last := ps[|ps| - 1];
      var j := LastIndex(kids(last), cm);
      if pm(last) && j.Some? then Some((|ps| - 1, j.value))
      else
        var r := LastPair(ps[..|ps| - 1], pm, kids, cm);
        assert forall i | 0 <= i < |ps| - 1 :: ps[..|ps| - 1][i] == ps[i];
        r
  }

  lemma LastIndexExtend<T>(xs: seq<T>, p: T -> bool, j: nat)
    requires j < |xs|
    ensures LastIndex(xs[..j + 1], p) == if p(xs[j]) then Some(j) else LastIndex(xs[..j], p)
  {
    assert xs[..j + 1][..j] == xs[..j];
  }

  lemma LastPairExtend<P, C>(ps: seq<P>, pm: P -> bool, kids: P -> seq<C>, cm: C -> bool, i: nat)
    requires i < |ps|
    ensures LastPair(ps[..i + 1], pm, kids, cm) ==
      if pm(ps[i]) && LastIndex(kids(ps[i]), cm).Some? then Some((i, LastIndex(kids(ps[i]), cm).value))
      else LastPair(ps[..i], pm, kids, cm)
  {
    assert ps[..i + 1][..i] == ps[..i];
  }

  /** The inner loop: the index of the last match, overwritten at every match. */
  method LastMatch<T>(xs: seq<T>, p: T -> bool) returns (r: Option<nat>)
    ensures r == LastIndex(xs, p)
  {
    r := None;
    var j := 0;
    while j < |xs|
      invariant 0 <= j <= |xs|
      invariant r == LastIndex(xs[..j], p)
    {
      LastIndexExtend(xs, p, j);
      if p(xs[j]) {
        r := Some(j);
      }
      j := j + 1;
    }
    assert xs[..j] == xs;
  }

  /**
    The two nested loops of the exporter's removals: `parent` is the last
    matching parent and the pair the last matching child under a matching
    parent.
  */
  method FindLast<P, C>(ps: seq<P>, pm: P -> bool, kids: P -> seq<C>, cm: C -> bool)
      returns (parent: Option<nat>, pair: Option<(nat, nat)>)
    ensures parent == LastIndex(ps, pm)
    ensures pair == LastPair(ps, pm, kids, cm)
  {
    parent, pair := None, None;
    var i := 0;
    while i < |ps|
      invariant 0 <= i <= |ps|
      invariant parent == LastIndex(ps[..i], pm)
      invariant pair == LastPair(ps[..i], pm, kids, cm)
    {
      LastIndexExtend(ps, pm, i);
      LastPairExtend(ps, pm, kids, cm, i);
      if pm(ps[i]) {
        parent := Some(i);
        var j := LastMatch(kids(ps[i]), cm);
        if j.Some? {
          pair := Some((i, j.value));
        }
      }
      i := i + 1;
    }
    assert ps[..i] == ps;
  }

  /**
    `parents[member].children.pop(child)` after the search: the parent index
    is the last matching parent, the child index the last matching child under
    any matching parent. A None index raises TypeError, a child index past the
    end of that parent's children IndexError.
  */
  function RemoveChild<P, C>(ps: seq<P>, pm: P -> bool, kids: P -> seq<C>, cm: C -> bool,
                             withKids: (P, seq<C>) -> P): (r: Result<seq<P>, Fault>)
    ensures LastIndex(ps, pm).None? || LastPair(ps, pm, kids, cm).None? ==> r == Err(TypeError)
    ensures r.Ok? ==> |r.value| == |ps|
  {
    var parent := LastIndex(ps, pm);
    var pair := LastPair(ps, pm, kids, cm);
    if parent.None? || pair.None? then Err(TypeError)
    else
      var cs := kids(ps[parent.value]);
      var j := pair.value.1;
      if j >= |cs| then Err(IndexError)
      else Ok(ps[parent.value := withKids(ps[parent.value], cs[..j] + cs[j + 1..])])
  }

  /**
    Under unique names the removal does what it is for: it takes exactly the
    named child out of the named parent, keeps the parent even when it is left
    with no children, and leaves every other parent as it was.
  */
  lemma RemoveChildUnique<P, C>(ps: seq<P>, pm: P -> bool, kids: P -> seq<C>, cm: C -> bool,
                                withKids: (P, seq<C>) -> P, i: nat, j: nat)
    requires i < |ps| && pm(ps[i]) && forall k | 0 <= k < |ps| && k != i :: !pm(ps[k])
    requires j < |kids(ps[i])| && cm(kids(ps[i])[j])
    requires forall k | 0 <= k < |kids(ps[i])| && k != j :: !cm(kids(ps[i])[k])
    ensures RemoveChild(ps, pm, kids, cm, withKids) ==
      Ok(ps[i := withKids(ps[i], kids(ps[i])[..j] + kids(ps[i])[j + 1..])])
  {
    var parent := LastIndex(ps, pm);
    var pair := LastPair(ps, pm, kids, cm);
    assert parent == Some(i);
    assert pair.Some? && pair.value.0 == i;
  }

  /** With one matching parent holding one matching child, the last pair is that parent and that child. */
  lemma LastPairUnique<P, C>(ps: seq<P>, pm: P -> bool, kids: P -> seq<C>, cm: C -> bool, i: nat, j: nat)
    requires i < |ps| && pm(ps[i]) && forall k | 0 <= k < |ps| && k != i :: !pm(ps[k])
    requires j < |kids(ps[i])| && cm(kids(ps[i])[j])
    requires forall k | 0 <= k < |kids(ps[i])| && k != j :: !cm(kids(ps[i])[k])
    ensures LastPair(ps, pm, kids, cm) == Some((i, j))
  {
    var pair := LastPair(ps, pm, kids, cm);
    assert pair.Some? && pair.value.0 == i;
  }

  /** When the last matching parent holds no match, the child index comes from an earlier parent. */
  lemma RemoveChildFromOtherParent<P, C>(ps: seq<P>, pm: P -> bool, kids: P -> seq<C>, cm: C -> bool,
                                         withKids: (P, seq<C>) -> P)
    requires LastIndex(ps, pm).Some? && LastPair(ps, pm, kids, cm).Some?
    requires forall j | 0 <= j < |kids(ps[LastIndex(ps, pm).value])| :: !cm(kids(ps[LastIndex(ps, pm).value])[j])
    ensures LastPair(ps, pm, kids, cm).value.0 < LastIndex(ps, pm).value
  {
  }

  // ---------------------------------------------------------------------
  // The first match: `for p in ps: for c in kids(p): if holds(c): ...; return`

  function FirstIndex<T>(xs: seq<T>, p: T -> bool): (r: Option<nat>)
    ensures r.Some? ==> (r.value < |xs| && p(xs[r.value]) && forall j | 0 <= j < r.value :: !p(xs[j]))
    ensures r.None? ==> forall j | 0 <= j < |xs| :: !p(xs[j])
    decreases |xs|
  {
    if xs == [] then None
    else if p(xs[0]) then Some(0)
    else
      var r := FirstIndex(xs[1..], p);
      assert forall j | 1 <= j < |xs| :: xs[j] == xs[1..][j - 1];
      if r.Some? then Some(r.value + 1) else None
  }

  /** The first child, over all parents in order, that `holds`, as (parent index, child index). */
  function FirstHolder<P, C>(ps: seq<P>, kids: P -> seq<C>, holds: C -> bool): (r: Option<(nat, nat)>)
    ensures r.Some? ==> (r.value.0 < |ps| && r.value.1 < |kids(ps[r.value.0])| &&
      holds(kids(ps[r.value.0])[r.value.1]) &&
      (forall j | 0 <= j < r.value.1 :: !holds(kids(ps[r.value.0])[j])) &&
      (forall i, j | 0 <= i < r.value.0 && 0 <= j < |kids(ps[i])| :: !holds(kids(ps[i])[j])))
    ensures r.None? ==> forall i, j | 0 <= i < |ps| && 0 <= j < |kids(ps[i])| :: !holds(kids(ps[i])[j])
    decreases |ps|
  {
    if ps == [] then None
    else
      var j := FirstIndex(kids(ps[0]), holds);
      if j.Some? then Some((0, j.value))
      else
        var r := FirstHolder(ps[1..], kids, holds);
        assert forall i | 1 <= i < |ps| :: ps[i] == ps[1..][i - 1];
        if r.Some? then Some((r.value.0 + 1, r.value.1)) else None
  }

  /** The first holder is the only pair with nothing holding before it. */
  lemma FirstHolderUnique<P, C>(ps: seq<P>, kids: P -> seq<C>, holds: C -> bool, i: nat, j: nat)
    requires i < |ps| && j < |kids(ps[i])| && holds(kids(ps[i])[j])
    requires forall j' | 0 <= j' < j :: !holds(kids(ps[i])[j'])
    requires forall i', j' | 0 <= i' < i && 0 <= j' < |kids(ps[i'])| :: !holds(kids(ps[i'])[j'])
    ensures FirstHolder(ps, kids, holds) == Some((i, j))
  {
    var r := FirstHolder(ps, kids, holds);
    assert r.Some?;
    if r.value.0 < i {
    } else if r.value.0 > i {
    } else if r.value.1 < j {
    } else if r.value.1 > j {
    }
  }

  /** The nested search of `change_export_item_name`, returning at the first holder. */
  method FindHolder<P, C>(ps: seq<P>, kids: P -> seq<C>, holds: C -> bool) returns (r: Option<(nat, nat)>)
    ensures r == FirstHolder(ps, kids, holds)
  {
    var i := 0;
    while i < |ps|
      invariant 0 <= i <= |ps|
      invariant forall i', j' | 0 <= i' < i && 0 <= j' < |kids(ps[i'])| :: !holds(kids(ps[i'])[j'])
    {
      var cs := kids(ps[i]);
      var j := 0;
      while j < |cs|
        invariant 0 <= j <= |cs|
        invariant forall j' | 0 <= j' < j :: !holds(cs[j'])
      {
        if holds(cs[j]) {
          FirstHolderUnique(ps, kids, holds, i, j);
          return Some((i, j));
        }
        j := j + 1;
      }
      i := i + 1;
    }
    return None;
  }

  /** `xs.pop(xs.index(x)); xs.append(y)`: the first `x` leaves and `y` goes to the end. */
  function ReplaceItem(xs: seq<string>, x: string, y: string): (r: seq<string>)
    requires x in xs
    ensures |r| == |xs|
    ensures r[|r| - 1] == y
    ensures multiset(r) == multiset(xs) - multiset{x} + multiset{y}
  {
    var k := FirstIndex(xs, s => s == x).value;
    assert xs == xs[..k] + [xs[k]] + xs[k + 1..];
    xs[..k] + xs[k + 1..] + [y]
  }

  // ---------------------------------------------------------------------
  // Collecting in order until the first exception:
  // `for x in xs: out += step(x)`, where a step may raise after adding

  /** The outputs of the steps in order, and the fault of the first step that raised; later steps do not run. */
  function Gather<T, E>(xs: seq<T>, step: T -> (seq<E>, Option<Fault>)): (seq<E>, Option<Fault>)
    decreases |xs|
  {
    if xs == [] then ([], None)
    else
      var r := Gather(xs[..|xs| - 1], step);
      if r.1.Some? then r
      else
        var s := step(xs[|xs| - 1]);
        (r.0 + s.0, s.1)
  }

  /** Once a step has raised, the later items change nothing. */
  lemma {:induction false} GatherStops<T, E>(xs: seq<T>, step: T -> (seq<E>, Option<Fault>), n: nat)
    requires n <= |xs| && Gather(xs[..n], step).1.Some?
    ensures Gather(xs, step) == Gather(xs[..n], step)
    decreases |xs| - n
  {
    if n < |xs| {
      assert xs[..n + 1][..n] == xs[..n];
      GatherStops(xs, step, n + 1);
    } else {
      assert xs[..n] == xs;
    }
  }

  /** Steps that add nothing and raise nothing leave nothing. */
  lemma {:induction false} GatherQuiet<T, E>(xs: seq<T>, step: T -> (seq<E>, Option<Fault>))
    requires forall k | 0 <= k < |xs| :: step(xs[k]) == ([], None)
    ensures Gather(xs, step) == ([], None)
    decreases |xs|
  {
    if xs != [] {
      var init := xs[..|xs| - 1];
      assert forall k | 0 <= k < |init| :: init[k] == xs[k];
      GatherQuiet(init, step);
      var last := step(xs[|xs| - 1]);
      assert last.0 == [] && last.1 == None;
      assert Gather(xs, step).0 == Gather(init, step).0 + last.0;
    }
  }

  /** When only item `j`'s step does anything, the whole collection is that step's outcome. */
  lemma {:induction false} GatherOne<T, E>(xs: seq<T>, step: T -> (seq<E>, Option<Fault>), j: nat)
    requires j < |xs| && forall k | 0 <= k < |xs| && k != j :: step(xs[k]) == ([], None)
    ensures Gather(xs, step) == step(xs[j])
    decreases |xs|
  {
    var init := xs[..|xs| - 1];
    assert forall k | 0 <= k < |init| :: init[k] == xs[k];
    if j == |xs| - 1 {
      GatherQuiet(init, step);
      assert [] + step(xs[j]).0 == step(xs[j]).0;
    } else {
      GatherOne(init, step, j);
      if step(xs[j]).1.None? {
        assert step(xs[j]).0 + [] == step(xs[j]).0;
      }
    }
  }
}
