/** Type definitions in any order: each is tried with a placeholder for itself, and those
    that fail are tried again until none is left. */
module TypeFixpoint {

  /** A definition and the types its body mentions, in the order they are looked up. */
  datatype Def = Def(name: string, mentions: seq<string>)

  datatype Entry = Placeholder | Defined

  function Names(ds: seq<Def>): set<string> { set d | d in ds :: d.name }

  ghost predicate Distinct(ds: seq<Def>) { forall i, j :: 0 <= i < j < |ds| ==> ds[i].name != ds[j].name }

  /** `known`: the types found outside the table, such as those of other packages. */
  predicate Resolves(known: set<string>, table: set<string>, d: Def) {
    forall m :: m in d.mentions ==> m in known || m in table || m == d.name
  }

  /** The names in the table, and the definitions that have failed so far. */
  datatype Round = Round(table: set<string>, failed: seq<Def>)

  /** One pass over the definitions. */
  function Pass(known: set<string>, table: set<string>, ds: seq<Def>): Round
    decreases |ds|
  {
    if ds == [] then Round(table, [])
    else if Resolves(known, table, ds[0]) then Pass(known, table + {ds[0].name}, ds[1..])
    else
      var r := Pass(known, table, ds[1..]);
      Round(r.table, [ds[0]] + r.failed)
  }

  /** Some passes, from an empty table. */
  function Passes(known: set<string>, ds: seq<Def>, n: nat): Round {
    if n == 0 then Round({}, ds)
    else
      var r := Passes(known, ds, n - 1);
      Pass(known, r.table, r.failed)
  }

  class Globals {
    const known: set<string>
    var types: map<string, Entry>
    var defFuncs: seq<Def>

    constructor (known: set<string>, defFuncs: seq<Def>)
      ensures this.known == known && this.defFuncs == defFuncs && types == map[]
    {
      this.known, this.defFuncs, types := known, defFuncs, map[];
    }

    /** A definition's function: a placeholder first, so that the type may mention itself;
        on failure the placeholder goes again. A name that is in the table already keeps its
        entry when this definition succeeds, and loses it when it fails. */
    method DefFunc(d: Def) returns (ok: bool)
      modifies this`types
      ensures ok <==> Resolves(known, old(types.Keys), d)
      ensures d.name !in old(types) ==> types == if ok then old(types)[d.name := Defined] else old(types)
      ensures d.name in old(types) ==> types == if ok then old(types) else old(types) - {d.name}
    {
      var isNew := d.name !in types;
      if isNew { types := types[d.name := Placeholder]; }
      ghost var started := types;
      var i := 0;
      while i < |d.mentions|
        invariant 0 <= i <= |d.mentions| && types == started
        invariant forall k :: 0 <= k < i ==> d.mentions[k] in known || d.mentions[k] in types
      {
        if d.mentions[i] !in known && d.mentions[i] !in types {
          types := types - {d.name};
          return false;
        }
        i := i + 1;
      }
      if isNew { types := types[d.name := Defined]; }
      return true;
    }

    /** One turn of the loop in CalcGlobals. */
    method TryAll()
      requires Distinct(defFuncs) && Names(defFuncs) !! types.Keys
      modifies this
      ensures var r := old(Pass(known, types.Keys, defFuncs)); types.Keys == r.table && defFuncs == r.failed
      ensures forall t :: t in types && t !in old(types) ==> types[t] == Defined
      ensures forall t :: t in old(types) ==> t in types && types[t] == old(types)[t]
    {
      var failed: seq<Def> := [];
      ghost var from := types.Keys;
      var i := 0;
      assert defFuncs[0..] == defFuncs;
      while i < |defFuncs|
        invariant 0 <= i <= |defFuncs| && defFuncs == old(defFuncs) && from <= types.Keys
        invariant Names(defFuncs[i..]) !! types.Keys
        invariant var r, rest := Pass(known, from, defFuncs), Pass(known, types.Keys, defFuncs[i..]);
          r.table == rest.table && r.failed == failed + rest.failed
        invariant forall t :: t in types && t !in old(types) ==> types[t] == Defined
        invariant forall t :: t in old(types) ==> t in types && types[t] == old(types)[t]
      {
        var d := defFuncs[i];
        assert d in defFuncs[i..] && defFuncs[i..][1..] == defFuncs[i + 1..];
        OthersApart(defFuncs, i);
        ghost var before := types.Keys;
        var ok := DefFunc(d);
        assert types.Keys == if ok then before + {d.name} else before;
        if !ok { failed := failed + [d]; }
        i := i + 1;
      }
      defFuncs := failed;
    }

    /** The loop of CalcGlobals: it ends, and leaves every definition in the table. */
    method CalcGlobals() returns (ghost passes: nat)
      requires Distinct(defFuncs) && Resolvable(known, defFuncs)
      modifies this
      ensures types.Keys == old(Names(defFuncs)) && defFuncs == [] && forall t :: t in types ==> types[t] == Defined
      ensures passes <= old(|defFuncs|) || passes == 1
    {
      hide Resolvable, Distinct;
      types := map[];
      passes := 0;
      ghost var ds := defFuncs;
      while true
        invariant types.Keys == Passes(known, ds, passes).table && defFuncs == Passes(known, ds, passes).failed
        invariant (forall t :: t in types ==> types[t] == Defined) && (passes > 0 ==> defFuncs != [])
        decreases |defFuncs|
      {
        AfterPasses(known, ds, passes);
        AfterPasses(known, ds, passes + 1);
        if defFuncs != [] { PassShrinks(known, ds, types.Keys, defFuncs); }
        TryAll();
        passes := passes + 1;
        if |defFuncs| == 0 { break; }
      }
    }
  }

  lemma OthersApart(ds: seq<Def>, i: nat)
    requires Distinct(ds) && i < |ds|
    ensures ds[i].name !in Names(ds[i + 1..]) && Names(ds[i + 1..]) <= Names(ds[i..]) && ds[i].name in Names(ds[i..])
  {
    assert ds[i] in ds[i..];
    forall d | d in ds[i + 1..] ensures d in ds[i..] && d.name != ds[i].name {
      var k :| 0 <= k < |ds[i + 1..]| && ds[i + 1..][k] == d;
      assert ds[i..][k + 1] == d && ds[i + 1 + k] == d;
    }
  }

  // ----- which definitions can be resolved -----

  /** Every mention of another type is known, or is a definition of lower rank. */
  ghost predicate Ranked(known: set<string>, ds: seq<Def>, rank: map<string, nat>) {
    && rank.Keys == Names(ds)
    && forall d, m :: d in ds && m in d.mentions && m != d.name && m !in known ==> m in rank && rank[m] < rank[d.name]
  }

  /** The mentions, apart from self-reference, are all defined or known and form no cycle. */
  ghost predicate Resolvable(known: set<string>, ds: seq<Def>) { exists rank :: Ranked(known, ds, rank) }

  lemma {:induction false} PassSplits(known: set<string>, table: set<string>, ds: seq<Def>)
    requires Distinct(ds) && Names(ds) !! table
    ensures var Round(t, failed) := Pass(known, table, ds);
      && |failed| <= |ds| && (forall d :: d in failed ==> d in ds) && Distinct(failed)
      && t == table + (Names(ds) - Names(failed)) && Names(failed) !! t
    decreases |ds|
  {
    if ds != [] {
      OthersApart(ds, 0);
      var d, rest := ds[0], ds[1..];
      HeadNames(d, rest);
      assert ds == [d] + rest;
      if Resolves(known, table, d) {
        PassSplits(known, table + {d.name}, rest);
        NamesWithin(Pass(known, table + {d.name}, rest).failed, rest);
      } else {
        PassSplits(known, table, rest);
        HeadNames(d, Pass(known, table, rest).failed);
        NamesWithin(Pass(known, table, rest).failed, rest);
      }
    }
  }

  lemma HeadNames(d: Def, rest: seq<Def>)
    ensures Names([d] + rest) == {d.name} + Names(rest)
    ensures Distinct(rest) && d.name !in Names(rest) ==> Distinct([d] + rest)
    ensures Distinct([d] + rest) ==> Distinct(rest)
  {
    var ds := [d] + rest;
    assert forall e :: e in ds <==> e == d || e in rest;
    forall i, j | 0 <= i < j < |ds| && Distinct(rest) && d.name !in Names(rest) ensures ds[i].name != ds[j].name {
      assert ds[j] in rest;
    }
    if Distinct(ds) {
      forall i, j | 0 <= i < j < |rest| ensures rest[i].name != rest[j].name {
        assert ds[i + 1].name != ds[j + 1].name;
      }
    }
  }

  lemma NamesWithin(a: seq<Def>, b: seq<Def>)
    requires forall d :: d in a ==> d in b
    ensures Names(a) <= Names(b)
  {
  }

  /** A definition whose mentions are already there does not fail. */
  lemma {:induction false} ReadyResolves(known: set<string>, table: set<string>, ds: seq<Def>, d: Def)
    requires Distinct(ds) && Names(ds) !! table && d in ds && Resolves(known, table, d)
    ensures d !in Pass(known, table, ds).failed && |Pass(known, table, ds).failed| < |ds|
    decreases |ds|
  {
    var rest := ds[1..];
    assert ds == [ds[0]] + rest;
    OthersApart(ds, 0);
    HeadNames(ds[0], rest);
    assert d != ds[0] ==> d in rest;
    hide Names, Distinct;
    var table' := if Resolves(known, table, ds[0]) then table + {ds[0].name} else table;
    PassSplits(known, table', rest);
    if d == ds[0] {
      NamedIn(d, rest);
    } else {
      ReadyResolves(known, table', rest, d);
    }
  }

  lemma NamedIn(d: Def, ds: seq<Def>)
    requires d.name !in Names(ds)
    ensures d !in ds
  {
  }

  /** The definition of lowest rank. */
  lemma {:induction false} Lowest(ds: seq<Def>, rank: map<string, nat>) returns (d: Def)
    requires ds != [] && Names(ds) <= rank.Keys
    ensures d in ds && forall e :: e in ds ==> e.name in rank && rank[d.name] <= rank[e.name]
  {
    assert forall e :: e in ds ==> e.name in Names(ds);
    d := ds[0];
    if |ds| > 1 {
      assert forall e :: e in ds[1..] ==> e in ds;
      var r := Lowest(ds[1..], rank);
      if rank[r.name] < rank[d.name] { d := r; }
      assert forall e :: e in ds ==> e == ds[0] || e in ds[1..];
    }
  }

  /** What holds between passes. */
  ghost predicate Underway(all: seq<Def>, table: set<string>, left: seq<Def>) {
    Distinct(left) && Names(left) !! table && table + Names(left) == Names(all) && forall d :: d in left ==> d in all
  }

  lemma PassGoesOn(known: set<string>, all: seq<Def>, table: set<string>, left: seq<Def>)
    requires Underway(all, table, left)
    ensures var Round(t, failed) := Pass(known, table, left); Underway(all, t, failed)
  {
    PassSplits(known, table, left);
    assert Names(Pass(known, table, left).failed) <= Names(left);
  }

  /** While any is left, a pass over resolvable definitions defines at least one. */
  lemma PassShrinks(known: set<string>, all: seq<Def>, table: set<string>, left: seq<Def>)
    requires Underway(all, table, left) && Resolvable(known, all) && left != []
    ensures |Pass(known, table, left).failed| < |left|
  {
    var rank :| Ranked(known, all, rank);
    var d := Lowest(left, rank);
    forall m | m in d.mentions && m !in known && m != d.name ensures m in table {
      assert m in rank && rank[m] < rank[d.name];
    }
    ReadyResolves(known, table, left, d);
  }

  lemma {:induction false} AfterPasses(known: set<string>, ds: seq<Def>, n: nat)
    requires Distinct(ds)
    ensures var Round(t, failed) := Passes(known, ds, n);
      Underway(ds, t, failed) && (Resolvable(known, ds) ==> |failed| + n <= |ds| || failed == [])
  {
    if n > 0 {
      AfterPasses(known, ds, n - 1);
      var Round(t, failed) := Passes(known, ds, n - 1);
      PassGoesOn(known, ds, t, failed);
      if Resolvable(known, ds) && failed != [] { PassShrinks(known, ds, t, failed); }
    }
  }

  // ----- the loop ends only for resolvable definitions -----

  /** Ranks for what is in the table. */
  ghost predicate RanksTable(known: set<string>, all: seq<Def>, table: set<string>, rank: map<string, nat>) {
    && rank.Keys == table && (forall n :: n in rank ==> rank[n] < |table|)
    && forall d, m :: d in all && d.name in table && m in d.mentions && m != d.name && m !in known ==>
      m in rank && rank[m] < rank[d.name]
  }

  lemma SameName(ds: seq<Def>, d: Def, e: Def)
    requires Distinct(ds) && d in ds && e in ds && d.name == e.name
    ensures d == e
  {
    var i :| 0 <= i < |ds| && ds[i] == d;
    var j :| 0 <= j < |ds| && ds[j] == e;
    assert !(i < j) && !(j < i);
  }

  lemma OneMoreRanked(known: set<string>, all: seq<Def>, table: set<string>, d: Def, rank: map<string, nat>)
    requires Distinct(all) && d in all && d.name !in table && RanksTable(known, all, table, rank)
      && Resolves(known, table, d)
    ensures RanksTable(known, all, table + {d.name}, rank[d.name := |table|])
  {
    forall e | e in all && e.name == d.name ensures e == d { SameName(all, d, e); }
  }

  lemma {:induction false} PassRanks(known: set<string>, all: seq<Def>, table: set<string>, ds: seq<Def>,
          rank: map<string, nat>) returns (rank': map<string, nat>)
    requires Distinct(all) && Distinct(ds) && Names(ds) !! table && RanksTable(known, all, table, rank)
    requires forall d :: d in ds ==> d in all
    ensures RanksTable(known, all, Pass(known, table, ds).table, rank')
    decreases |ds|
  {
    hide RanksTable, Resolves;
    if ds == [] {
      rank' := rank;
    } else {
      OthersApart(ds, 0);
      HeadNames(ds[0], ds[1..]);
      assert ds == [ds[0]] + ds[1..];
      if Resolves(known, table, ds[0]) {
        OneMoreRanked(known, all, table, ds[0], rank);
        rank' := PassRanks(known, all, table + {ds[0].name}, ds[1..], rank[ds[0].name := |table|]);
      } else {
        rank' := PassRanks(known, all, table, ds[1..], rank);
      }
    }
  }

  lemma {:induction false} PassesRank(known: set<string>, ds: seq<Def>, n: nat) returns (rank: map<string, nat>)
    requires Distinct(ds)
    ensures RanksTable(known, ds, Passes(known, ds, n).table, rank)
  {
    if n == 0 {
      rank := map[];
    } else {
      rank := PassesRank(known, ds, n - 1);
      AfterPasses(known, ds, n - 1);
      var r := Passes(known, ds, n - 1);
      rank := PassRanks(known, ds, r.table, r.failed, rank);
    }
  }

  /** The loop ends if and only if the mentions other than self-reference are defined or
      known and form no cycle; then it takes at most as many passes as there are
      definitions, whatever their order. */
  lemma EndsExactlyWhen(known: set<string>, ds: seq<Def>)
    requires Distinct(ds)
    ensures (exists n :: Passes(known, ds, n).failed == []) <==> Resolvable(known, ds)
    ensures Resolvable(known, ds) ==> Passes(known, ds, |ds|) == Round(Names(ds), [])
  {
    AfterPasses(known, ds, |ds|);
    if n :| Passes(known, ds, n).failed == [] {
      AfterPasses(known, ds, n);
      var rank := PassesRank(known, ds, n);
      assert Passes(known, ds, n).table == Names(ds);
      assert Ranked(known, ds, rank);
    }
    if Resolvable(known, ds) {
      assert Passes(known, ds, |ds|).table == Names(ds);
    }
  }
}
