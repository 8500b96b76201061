/** Price resolution: exact keys, then the longest contained key of the first table that has one. */
module Pricing {
  import opened Common

  datatype Price = Price(inputPer1k: real, outputPer1k: real)

  datatype Source = Override | Synced | Builtin | NoSource

  datatype Resolution = Resolution(price: Price, source: Source)

  /** A dictionary: its keys in the order they were first set, and their prices. */
  datatype Table = Table(keys: seq<string>, prices: map<string, Price>)

  ghost predicate Proper(t: Table) {
    && (forall i, j :: 0 <= i < j < |t.keys| ==> t.keys[i] != t.keys[j])
    && (forall k :: k in t.keys <==> k in t.prices)
  }

  function Lower(s: string): (r: string)
    ensures |r| == |s|
  {
    seq(|s|, i requires 0 <= i < |s| => if 'A' <= s[i] <= 'Z' then s[i] - 'A' + 'a' else s[i])
  }

  predicate Contains(s: string, sub: string) {
    exists i :: 0 <= i <= |s| - |sub| && At(s, i, sub)
  }

  predicate At(s: string, i: int, sub: string)
    requires 0 <= i <= |s| - |sub|
  {
    s[i..i + |sub|] == sub
  }

  const BUILTIN := Table(
    ["claude-sonnet-4-5", "claude-3-5-haiku", "titan-embed", "text-embedding-3-small", "gemini-2.0-flash",
     "gpt-4o-mini", "gpt-4o"],
    map["claude-sonnet-4-5" := Price(0.003, 0.015), "claude-3-5-haiku" := Price(0.0008, 0.004),
        "titan-embed" := Price(0.00002, 0.0), "text-embedding-3-small" := Price(0.00002, 0.0),
        "gemini-2.0-flash" := Price(0.0001, 0.0004), "gpt-4o-mini" := Price(0.00015, 0.0006),
        "gpt-4o" := Price(0.0025, 0.01)])

  // ---------------------------------------------------------------- tables

  function Put(t: Table, k: string, p: Price): Table {
    Table(if k in t.prices then t.keys else t.keys + [k], t.prices[k := p])
  }

  function Without(keys: seq<string>, k: string): (r: seq<string>)
    ensures forall x :: x in r <==> x in keys && x != k
  {
    if keys == [] then []
    else Without(keys[..|keys| - 1], k) + (if keys[|keys| - 1] == k then [] else [keys[|keys| - 1]])
  }

  function Drop(t: Table, k: string): Table {
    if k in t.prices then Table(Without(t.keys, k), t.prices - {k}) else t
  }

  lemma PutKeepsProper(t: Table, k: string, p: Price)
    requires Proper(t)
    ensures Proper(Put(t, k, p))
  {
  }

  lemma {:induction false} WithoutIsDistinct(keys: seq<string>, k: string)
    requires forall i, j :: 0 <= i < j < |keys| ==> keys[i] != keys[j]
    ensures forall i, j :: 0 <= i < j < |Without(keys, k)| ==> Without(keys, k)[i] != Without(keys, k)[j]
  {
    if keys != [] {
      WithoutIsDistinct(keys[..|keys| - 1], k);
      var rest := Without(keys[..|keys| - 1], k);
      forall i | 0 <= i < |rest| ensures rest[i] != keys[|keys| - 1] {
        assert rest[i] in keys[..|keys| - 1];
      }
    }
  }

  lemma DropKeepsProper(t: Table, k: string)
    requires Proper(t)
    ensures Proper(Drop(t, k))
  {
    WithoutIsDistinct(t.keys, k);
  }

  /** Setting a new key and clearing it is nothing. */
  lemma PutThenDrop(t: Table, k: string, p: Price)
    requires Proper(t) && k !in t.prices
    ensures Drop(Put(t, k, p), k) == t
  {
    assert (t.keys + [k])[..|t.keys|] == t.keys;
    assert forall i :: 0 <= i < |t.keys| ==> t.keys[i] in t.keys;
    WithoutNothing(t.keys, k);
    assert t.prices[k := p] - {k} == t.prices;
  }

  lemma {:induction false} WithoutNothing(keys: seq<string>, k: string)
    requires forall i :: 0 <= i < |keys| ==> keys[i] != k
    ensures Without(keys, k) == keys
  {
    if keys != [] {
      var n := |keys| - 1;
      WithoutNothing(keys[..n], k);
      assert keys == keys[..n] + [keys[n]];
    }
  }

  // ---------------------------------------------------------------- the longest contained key

  predicate Matches(k: string, mid: string) {
    k != "" && Contains(mid, k)
  }

  ghost predicate Longest(keys: seq<string>, mid: string, k: string) {
    k in keys && Matches(k, mid) && forall x :: x in keys && Matches(x, mid) ==> |x| <= |k|
  }

  /** The first of the longest keys that match. */
  function Best(keys: seq<string>, mid: string): (best: Option<string>)
    ensures best.Some? ==> best.value in keys
  {
    if keys == [] then None
    else
      var best, k := Best(keys[..|keys| - 1], mid), keys[|keys| - 1];
      if Matches(k, mid) && (best.None? || |k| > |best.value|) then Some(k) else best
  }

  lemma {:induction false} BestIsLongest(keys: seq<string>, mid: string)
    ensures Best(keys, mid).Some? ==> Longest(keys, mid, Best(keys, mid).value)
    ensures Best(keys, mid).None? <==> forall x :: x in keys ==> !Matches(x, mid)
  {
    if keys != [] {
      hide Matches;
      var front, k := keys[..|keys| - 1], keys[|keys| - 1];
      BestIsLongest(front, mid);
      assert keys == front + [k];
      assert forall x :: x in keys <==> x in front || x == k;
    }
  }

  function FromTable(t: Table, mid: string): Option<Price>
    requires Proper(t)
  {
    var best := Best(t.keys, mid);
    if best.Some? then Some(t.prices[best.value]) else None
  }

  ghost predicate AllProper(tables: seq<(Table, Source)>) {
    forall i :: 0 <= i < |tables| ==> Proper(tables[i].0)
  }

  /** The first table with a match decides. */
  function Search(tables: seq<(Table, Source)>, mid: string): Resolution
    requires AllProper(tables)
  {
    if tables == [] then Resolution(Price(0.0, 0.0), NoSource)
    else
      var found := FromTable(tables[0].0, mid);
      if found.Some? then Resolution(found.value, tables[0].1) else Search(tables[1..], mid)
  }

  function Resolve(overrides: Table, synced: Table, builtin: Table, model: string): Resolution
    requires Proper(overrides) && Proper(synced) && Proper(builtin)
  {
    var mid := Lower(model);
    if mid in overrides.prices then Resolution(overrides.prices[mid], Override)
    else if mid in synced.prices then Resolution(synced.prices[mid], Synced)
    else Search([(overrides, Override), (synced, Synced), (builtin, Builtin)], mid)
  }

  /** The scan of one table. */
  method BestKey(keys: seq<string>, mid: string) returns (best: Option<string>)
    ensures best == Best(keys, mid)
  {
    hide Matches;
    best := None;
    for i := 0 to |keys|
      invariant best == Best(keys[..i], mid)
    {
      assert keys[..i + 1][..i] == keys[..i];
      var key := keys[i];
      if Matches(key, mid) && (best.None? || |key| > |best.value|) {
        best := Some(key);
      }
    }
    assert keys[..|keys|] == keys;
  }

  /** The loop over the tables. */
  method SearchTables(tables: seq<(Table, Source)>, mid: string) returns (r: Resolution)
    requires AllProper(tables)
    ensures r == Search(tables, mid)
  {
    for i := 0 to |tables|
      invariant Search(tables, mid) == Search(tables[i..], mid)
    {
      var best := BestKey(tables[i].0.keys, mid);
      assert tables[i..][1..] == tables[i + 1..];
      if best.Some? {
        return Resolution(tables[i].0.prices[best.value], tables[i].1);
      }
    }
    r := Resolution(Price(0.0, 0.0), NoSource);
  }

  function PriceAt(t: Table, k: string): Option<Price> {
    if k in t.prices then Some(t.prices[k]) else None
  }

  datatype Op = Set(model: string, price: Price) | Clear(model: string)

  function Apply(t: Table, op: Op): Table {
    match op
    case Set(m, p) => Put(t, Lower(m), p)
    case Clear(m) => Drop(t, Lower(m))
  }

  function Overrides(ops: seq<Op>): Table {
    if ops == [] then Table([], map[]) else Apply(Overrides(ops[..|ops| - 1]), ops[|ops| - 1])
  }

  lemma {:induction false} OverridesAreProper(ops: seq<Op>)
    ensures Proper(Overrides(ops))
  {
    hide Lower;
    if ops != [] {
      hide Proper;
      var before, op := ops[..|ops| - 1], ops[|ops| - 1];
      OverridesAreProper(before);
      match op
      case Set(m, p) => PutKeepsProper(Overrides(before), Lower(m), p);
      case Clear(m) => DropKeepsProper(Overrides(before), Lower(m));
    }
  }

  lemma OneMoreOp(ops: seq<Op>, op: Op)
    ensures Overrides(ops + [op]) == Apply(Overrides(ops), op) && Proper(Overrides(ops + [op]))
  {
    hide Apply, Proper;
    OverridesAreProper(ops + [op]);
    assert (ops + [op])[..|ops|] == ops;
  }

  /** The price of a synced entry, per 1000 tokens; a missing cost is none. */
  function PerThousand(input: Option<real>, output: Option<real>): Price {
    Price(if input.Some? then input.value * 1000.0 else 0.0, if output.Some? then output.value * 1000.0 else 0.0)
  }

  class Prices {
    var overrides: Table
    var synced: Table
    /** All that was done to the overrides. */
    ghost var ops: seq<Op>

    /** The overrides are what their history left there. */
    ghost predicate Valid()
      reads this
    {
      Proper(synced) && Proper(overrides) && overrides == Overrides(ops)
    }

    constructor ()
      ensures Valid() && ops == [] && overrides == Table([], map[]) && synced == Table([], map[])
    {
      overrides, synced, ops := Table([], map[]), Table([], map[]), [];
    }

    /** From now on the model costs `p`, whatever else is known of it; no other key is touched. */
    method SetOverride(model: string, p: Price)
      requires Valid()
      modifies this`overrides, this`ops
      ensures Valid() && ops == old(ops) + [Set(model, p)]
      ensures Proper(BUILTIN) && Resolve(overrides, synced, BUILTIN, model) == Resolution(p, Override)
      ensures forall k :: k != Lower(model) ==> PriceAt(overrides, k) == PriceAt(old(overrides), k)
      ensures old(overrides).keys <= overrides.keys
    {
      BuiltinIsProper();
      OneMoreOp(ops, Set(model, p));
      hide BUILTIN, Proper, Overrides, Lower;
      overrides := Put(overrides, Lower(model), p);
      ops := ops + [Set(model, p)];
    }

    /** From now on the key has no override; no other key is touched, and the rest keep their order. */
    method ClearOverride(model: string)
      requires Valid()
      modifies this`overrides, this`ops
      ensures Valid() && ops == old(ops) + [Clear(model)]
      ensures forall k :: PriceAt(overrides, k) == if k == Lower(model) then None else PriceAt(old(overrides), k)
      ensures overrides.keys == Without(old(overrides).keys, Lower(model))
    {
      OneMoreOp(ops, Clear(model));
      if Lower(model) !in overrides.prices {
        assert forall i :: 0 <= i < |overrides.keys| ==> overrides.keys[i] in overrides.keys;
        WithoutNothing(overrides.keys, Lower(model));
      }
      hide Overrides, Lower, Without;
      overrides := Drop(overrides, Lower(model));
      ops := ops + [Clear(model)];
    }

    /** One entry of the synced dataset, which counts for its model unless that is overridden. */
    method Ingest(model: string, input: Option<real>, output: Option<real>)
      requires Valid()
      modifies this`synced
      ensures Valid()
      ensures input.None? && output.None? ==> synced == old(synced)
      ensures input.Some? || output.Some? ==>
        && Proper(BUILTIN)
        && var r := Resolve(overrides, synced, BUILTIN, model);
           if Lower(model) in overrides.prices then r == Resolution(overrides.prices[Lower(model)], Override)
           else
             && r.source == Synced
             && r.price.inputPer1k == (if input.Some? then 1000.0 * input.value else 0.0)
             && r.price.outputPer1k == (if output.Some? then 1000.0 * output.value else 0.0)
      ensures forall k :: k != Lower(model) ==> PriceAt(synced, k) == PriceAt(old(synced), k)
      ensures old(synced).keys <= synced.keys
    {
      BuiltinIsProper();
      hide BUILTIN, Proper, Overrides, Lower;
      if input.Some? || output.Some? {
        PutKeepsProper(synced, Lower(model), PerThousand(input, output));
        synced := Put(synced, Lower(model), PerThousand(input, output));
      }
    }

    method ResolvePrice(model: string) returns (r: Resolution)
      requires Valid()
      ensures Proper(BUILTIN) && r == Resolve(overrides, synced, BUILTIN, model)
    {
      BuiltinIsProper();
      hide BUILTIN, Search, Proper, Lower;
      var mid := Lower(model);
      if mid in overrides.prices {
        return Resolution(overrides.prices[mid], Override);
      }
      if mid in synced.prices {
        return Resolution(synced.prices[mid], Synced);
      }
      r := SearchTables([(overrides, Override), (synced, Synced), (BUILTIN, Builtin)], mid);
    }
  }

  lemma BuiltinIsProper()
    ensures Proper(BUILTIN)
  {
  }

  // ---------------------------------------------------------------- what a resolution is

  /** `t` prices `mid` by a longest contained key. */
  ghost predicate PricedBy(t: Table, mid: string, p: Price) {
    exists k :: Longest(t.keys, mid, k) && k in t.prices && t.prices[k] == p
  }

  ghost predicate NoMatch(t: Table, mid: string) {
    forall k :: k in t.keys ==> !Matches(k, mid)
  }

  lemma FromTableIsLongest(t: Table, mid: string)
    requires Proper(t)
    ensures FromTable(t, mid).Some? ==> PricedBy(t, mid, FromTable(t, mid).value)
    ensures FromTable(t, mid).None? <==> NoMatch(t, mid)
  {
    hide Matches;
    BestIsLongest(t.keys, mid);
  }

  /** Without an exact key the price is that of a longest key contained in the model id, in the first
      of the three tables that has any; the source says which. */
  lemma FirstTableLongestKey(o: Table, s: Table, b: Table, model: string)
    requires Proper(o) && Proper(s) && Proper(b) && Lower(model) !in o.prices && Lower(model) !in s.prices
    ensures var r, mid := Resolve(o, s, b, model), Lower(model);
            match r.source
            case Override => PricedBy(o, mid, r.price)
            case Synced => NoMatch(o, mid) && PricedBy(s, mid, r.price)
            case Builtin => NoMatch(o, mid) && NoMatch(s, mid) && PricedBy(b, mid, r.price)
            case NoSource => NoMatch(o, mid) && NoMatch(s, mid) && NoMatch(b, mid) && r.price == Price(0.0, 0.0)
  {
    hide Matches, Lower, PricedBy, NoMatch, FromTable;
    var mid := Lower(model);
    FromTableIsLongest(o, mid);
    FromTableIsLongest(s, mid);
    FromTableIsLongest(b, mid);
    ThreeTables(o, s, b, mid);
  }

  lemma ThreeTables(o: Table, s: Table, b: Table, mid: string)
    requires Proper(o) && Proper(s) && Proper(b)
    ensures Search([(o, Override), (s, Synced), (b, Builtin)], mid) ==
      if FromTable(o, mid).Some? then Resolution(FromTable(o, mid).value, Override)
      else if FromTable(s, mid).Some? then Resolution(FromTable(s, mid).value, Synced)
      else if FromTable(b, mid).Some? then Resolution(FromTable(b, mid).value, Builtin)
      else Resolution(Price(0.0, 0.0), NoSource)
  {
    hide FromTable, Proper, Search;
    SearchStep((b, Builtin), [], mid);
    SearchStep((s, Synced), [(b, Builtin)], mid);
    SearchStep((o, Override), [(s, Synced), (b, Builtin)], mid);
    assert [(b, Builtin)] + [] == [(b, Builtin)];
    assert [(s, Synced)] + [(b, Builtin)] == [(s, Synced), (b, Builtin)];
    assert [(o, Override)] + [(s, Synced), (b, Builtin)] == [(o, Override), (s, Synced), (b, Builtin)];
  }

  lemma SearchStep(first: (Table, Source), rest: seq<(Table, Source)>, mid: string)
    requires Proper(first.0) && AllProper(rest)
    ensures AllProper([first] + rest)
    ensures Search([first] + rest, mid) ==
      if FromTable(first.0, mid).Some? then Resolution(FromTable(first.0, mid).value, first.1) else Search(rest, mid)
    ensures Search([], mid) == Resolution(Price(0.0, 0.0), NoSource)
  {
    hide FromTable, Proper;
    assert ([first] + rest)[1..] == rest;
  }

  // ---------------------------------------------------------------- the order of a table

  ghost predicate TiesAgree(t: Table, mid: string)
    requires Proper(t)
  {
    forall k, k' :: Longest(t.keys, mid, k) && Longest(t.keys, mid, k') ==> t.prices[k] == t.prices[k']
  }

  lemma {:induction false} FirstOfLongestWins(k: string, rest: seq<string>, mid: string)
    requires Matches(k, mid) && forall x :: x in rest && Matches(x, mid) ==> |x| <= |k|
    ensures Best([k] + rest, mid) == Some(k)
  {
    hide Matches;
    if rest == [] {
      assert [k] + rest == [k] && [k][..0] == [];
    } else {
      var n := |rest| - 1;
      FirstOfLongestWins(k, rest[..n], mid);
      assert ([k] + rest)[..n + 1] == [k] + rest[..n];
      assert rest[n] in rest;
    }
  }

  /** The same table with `k` first. */
  ghost function Led(t: Table, k: string): Table {
    Table([k] + Without(t.keys, k), t.prices)
  }

  lemma LedByLongest(t: Table, mid: string, k: string)
    requires Proper(t) && Longest(t.keys, mid, k)
    ensures Proper(Led(t, k)) && FromTable(Led(t, k), mid) == Some(t.prices[k])
  {
    hide Matches, Without, Best;
    WithoutIsDistinct(t.keys, k);
    var rest := Without(t.keys, k);
    assert forall i :: 0 <= i < |rest| ==> rest[i] in rest;
    FirstOfLongestWins(k, rest, mid);
  }

  lemma SameKeysSameLongest(t: Table, t': Table, mid: string)
    requires Proper(t) && Proper(t') && t.prices == t'.prices && TiesAgree(t, mid)
    ensures FromTable(t', mid) == FromTable(t, mid)
  {
    hide Matches;
    BestIsLongest(t.keys, mid);
    BestIsLongest(t'.keys, mid);
    assert forall k :: k in t.keys <==> k in t'.keys;
    if Best(t'.keys, mid).Some? {
      assert Longest(t.keys, mid, Best(t'.keys, mid).value);
    }
  }

  /** One table's price does not depend on the order its keys were set in exactly when all its longest
      contained keys have the same price. */
  lemma {:induction false} TableOrderIff(t: Table, mid: string)
    requires Proper(t)
    ensures (forall t' {:trigger Proper(t')} :: Proper(t') && t'.prices == t.prices ==>
               FromTable(t', mid) == FromTable(t, mid)) <==> TiesAgree(t, mid)
  {
    hide Matches, FromTable;
    if TiesAgree(t, mid) {
      forall t' | Proper(t') && t'.prices == t.prices ensures FromTable(t', mid) == FromTable(t, mid) {
        SameKeysSameLongest(t, t', mid);
      }
    }
    if forall t' {:trigger Proper(t')} :: Proper(t') && t'.prices == t.prices ==>
         FromTable(t', mid) == FromTable(t, mid)
    {
      forall k | Longest(t.keys, mid, k) ensures FromTable(t, mid) == Some(t.prices[k]) {
        LedByLongest(t, mid, k);
        assert Proper(Led(t, k)) && Led(t, k).prices == t.prices;
      }
    }
  }

  /** What some order of the same entries would resolve to. */
  ghost predicate Reordering(t: Table, t': Table) {
    Proper(t') && t'.prices == t.prices
  }

  ghost predicate AnyOrder(o: Table, s: Table, b: Table, model: string)
    requires Proper(o) && Proper(s) && Proper(b)
  {
    forall o', s' {:trigger Reordering(o, o'), Reordering(s, s')} :: Reordering(o, o') && Reordering(s, s') ==>
      Resolve(o', s', b, model) == Resolve(o, s, b, model)
  }

  /** The table whose keys decide, if no key is exact, has no ties that differ. */
  ghost predicate Determined(o: Table, s: Table, model: string)
    requires Proper(o) && Proper(s)
  {
    var mid := Lower(model);
    || mid in o.prices || mid in s.prices
    || (if NoMatch(o, mid) then TiesAgree(s, mid) else TiesAgree(o, mid))
  }

  lemma SameKeys(t: Table, t': Table)
    requires Proper(t) && Reordering(t, t')
    ensures forall k :: k in t.keys <==> k in t'.keys
    ensures forall mid :: NoMatch(t, mid) <==> NoMatch(t', mid)
  {
  }

  lemma DeterminedInAnyOrder(o: Table, s: Table, b: Table, model: string, o': Table, s': Table)
    requires Proper(o) && Proper(s) && Proper(b) && Reordering(o, o') && Reordering(s, s') && Determined(o, s, model)
    ensures Resolve(o', s', b, model) == Resolve(o, s, b, model)
  {
    hide Lower, Search, FromTable, TiesAgree, Matches, NoMatch;
    var mid := Lower(model);
    ThreeTables(o, s, b, mid);
    ThreeTables(o', s', b, mid);
    SameKeys(o, o');
    SameKeys(s, s');
    FromTableIsLongest(o, mid);
    FromTableIsLongest(o', mid);
    FromTableIsLongest(s, mid);
    FromTableIsLongest(s', mid);
    if TiesAgree(o, mid) {
      SameKeysSameLongest(o, o', mid);
    }
    if TiesAgree(s, mid) {
      SameKeysSameLongest(s, s', mid);
    }
  }

  /** In a table with ties that differ, some order gives another price. */
  lemma SomeOrderDiffers(t: Table, mid: string) returns (t': Table)
    requires Proper(t) && !TiesAgree(t, mid)
    ensures Reordering(t, t') && FromTable(t', mid).Some? && FromTable(t', mid) != FromTable(t, mid)
    ensures !NoMatch(t, mid)
  {
    hide Matches;
    var k, k' :| Longest(t.keys, mid, k) && Longest(t.keys, mid, k') && t.prices[k] != t.prices[k'];
    hide Longest;
    LongestMatches(t, mid, k);
    LedByLongest(t, mid, k);
    LedByLongest(t, mid, k');
    t' := if FromTable(t, mid) == Some(t.prices[k]) then Led(t, k') else Led(t, k);
  }

  lemma LongestMatches(t: Table, mid: string, k: string)
    requires Longest(t.keys, mid, k)
    ensures !NoMatch(t, mid)
  {
  }

  /** A resolution does not depend on the order in which overrides and synced prices were set exactly
      when a key is exact, or all the longest contained keys of the table that decides have one price. */
  lemma {:induction false} OrderIndependentIff(o: Table, s: Table, b: Table, model: string)
    requires Proper(o) && Proper(s) && Proper(b)
    ensures AnyOrder(o, s, b, model) <==> Determined(o, s, model)
  {
    hide Lower, Search, FromTable, TiesAgree, Matches, Proper, Resolve, NoMatch;
    var mid := Lower(model);
    if Determined(o, s, model) {
      forall o', s' | Reordering(o, o') && Reordering(s, s')
        ensures Resolve(o', s', b, model) == Resolve(o, s, b, model)
      {
        DeterminedInAnyOrder(o, s, b, model, o', s');
      }
    } else {
      var o', s' := o, s;
      if NoMatch(o, mid) {
        s' := SomeOrderDiffers(s, mid);
      } else {
        o' := SomeOrderDiffers(o, mid);
      }
      assert Reordering(o, o') && Reordering(s, s');
      TwoOrdersDiffer(o, s, b, model, o', s');
    }
  }

  lemma TwoOrdersDiffer(o: Table, s: Table, b: Table, model: string, o': Table, s': Table)
    requires Proper(o) && Proper(s) && Proper(b) && Reordering(o, o') && Reordering(s, s')
    requires var mid := Lower(model);
             && mid !in o.prices && mid !in s.prices
             && (if NoMatch(o, mid) then o' == o && FromTable(s', mid).Some? && FromTable(s', mid) != FromTable(s, mid)
                                          && !NoMatch(s, mid)
                 else FromTable(o', mid).Some? && FromTable(o', mid) != FromTable(o, mid))
    ensures Resolve(o', s', b, model) != Resolve(o, s, b, model)
  {
    hide Lower, Search, FromTable, Matches, NoMatch;
    var mid := Lower(model);
    ThreeTables(o, s, b, mid);
    ThreeTables(o', s', b, mid);
    FromTableIsLongest(o, mid);
    FromTableIsLongest(s, mid);
  }

  lemma FirstSetWins(k: string, p: Price, l: string, q: Price, b: Table, model: string)
    requires Lower(k) == k && Lower(l) == l && k != l && |k| == |l| && Proper(b)
    requires Matches(k, Lower(model)) && Matches(l, Lower(model)) && Lower(model) != k && Lower(model) != l
    ensures Overrides([Set(k, p), Set(l, q)]).prices == map[k := p, l := q]
    ensures Proper(Overrides([Set(k, p), Set(l, q)])) && Proper(Table([], map[]))
    ensures Resolve(Overrides([Set(k, p), Set(l, q)]), Table([], map[]), b, model) == Resolution(p, Override)
  {
    TwoOverrides(k, p, l, q);
    FirstOfTwo(k, l, Lower(model));
    hide Overrides, Best, Lower, Search, Matches;
    var one, none := Table([k, l], map[k := p, l := q]), Table([], map[]);
    assert Proper(one) && Proper(none);
    ThreeTables(one, none, b, Lower(model));
  }

  lemma TwoWords()
    ensures Lower("ab") == "ab" && Lower("bc") == "bc" && Lower("abc") == "abc"
    ensures Matches("ab", "abc") && Matches("bc", "abc")
  {
    assert At("abc", 0, "ab") && At("abc", 1, "bc");
  }

  /** Two overrides set in one order or the other price the same model differently. */
  lemma OrderDecides(p: Price, q: Price, b: Table)
    requires p != q && Proper(b)
    ensures var none := Table([], map[]);
            var one, other := Overrides([Set("ab", p), Set("bc", q)]), Overrides([Set("bc", q), Set("ab", p)]);
            && Proper(one) && Proper(other) && Proper(none) && one.prices == other.prices
            && Resolve(one, none, b, "abc") == Resolution(p, Override)
            && Resolve(other, none, b, "abc") == Resolution(q, Override)
  {
    TwoWords();
    hide Overrides, Lower, Resolve, Matches, Proper;
    FirstSetWins("ab", p, "bc", q, b, "abc");
    FirstSetWins("bc", q, "ab", p, b, "abc");
    assert map["ab" := p, "bc" := q] == map["bc" := q, "ab" := p];
  }

  lemma TwoOverrides(k: string, p: Price, l: string, q: Price)
    requires Lower(k) == k && Lower(l) == l && k != l
    ensures Overrides([Set(k, p), Set(l, q)]) == Table([k, l], map[k := p, l := q])
  {
    hide Lower;
    assert [Set(k, p), Set(l, q)][..1] == [Set(k, p)] && [Set(k, p)][..0] == [];
    assert Overrides([Set(k, p)]) == Table([k], map[k := p]);
  }

  lemma FirstOfTwo(k: string, l: string, mid: string)
    requires Matches(k, mid) && Matches(l, mid) && |k| == |l|
    ensures Best([k, l], mid) == Some(k)
  {
    hide Matches;
    assert [k, l][..1] == [k] && [k][..0] == [];
  }

  // ---------------------------------------------------------------- shorter keys and overrides

  lemma ContainedIsNoLonger(mid: string, k: string)
    requires Contains(mid, k)
    ensures |k| <= |mid|
  {
  }

  /** A key shorter than the selected one, contained or not, changes nothing. */
  lemma ShorterKeyChangesNothing(t: Table, mid: string, k: string, shorter: string, p: Price)
    requires Proper(t) && Best(t.keys, mid) == Some(k) && |shorter| < |k|
    ensures Proper(Put(t, shorter, p))
    ensures FromTable(Put(t, shorter, p), mid) == FromTable(t, mid)
    ensures mid in Put(t, shorter, p).prices <==> mid in t.prices
    ensures mid in t.prices ==> Put(t, shorter, p).prices[mid] == t.prices[mid]
  {
    BestIsLongest(t.keys, mid);
    ContainedIsNoLonger(mid, k);
    hide Matches, Longest;
    PutKeepsProper(t, shorter, p);
    if shorter !in t.prices {
      assert (t.keys + [shorter])[..|t.keys|] == t.keys;
    }
  }

  /** An override for a key shorter than the one selected changes no resolution. */
  lemma {:induction false} OverrideOfShorterKey(o: Table, s: Table, b: Table, model: string, k: string,
                                                shorter: string, p: Price)
    requires Proper(o) && Proper(s) && Proper(b)
    requires Best(o.keys, Lower(model)) == Some(k) && |shorter| < |k|
    ensures Proper(Put(o, shorter, p)) && Resolve(Put(o, shorter, p), s, b, model) == Resolve(o, s, b, model)
  {
    hide Lower, Best, Put, Search, Proper;
    ShorterKeyChangesNothing(o, Lower(model), k, shorter, p);
    ThreeTables(o, s, b, Lower(model));
    ThreeTables(Put(o, shorter, p), s, b, Lower(model));
  }

  /** Nor does a synced key shorter than the one selected. */
  lemma {:induction false} SyncedShorterKey(o: Table, s: Table, b: Table, model: string, k: string, shorter: string,
                                            p: Price)
    requires Proper(o) && Proper(s) && Proper(b)
    requires Best(s.keys, Lower(model)) == Some(k) && |shorter| < |k|
    ensures Proper(Put(s, shorter, p)) && Resolve(o, Put(s, shorter, p), b, model) == Resolve(o, s, b, model)
  {
    hide Lower, Best, Put, Search, Proper;
    ShorterKeyChangesNothing(s, Lower(model), k, shorter, p);
    ThreeTables(o, s, b, Lower(model));
    ThreeTables(o, Put(s, shorter, p), b, Lower(model));
  }

  // ---------------------------------------------------------------- every sequence of overrides

  /** What the last operation on a key left there. */
  function LastOn(ops: seq<Op>, k: string): Option<Price> {
    if ops == [] then None
    else if Lower(ops[|ops| - 1].model) == k then
      (if ops[|ops| - 1].Set? then Some(ops[|ops| - 1].price) else None)
    else LastOn(ops[..|ops| - 1], k)
  }

  /** After any operations the overrides are in order, and each key has what was last done to it. */
  lemma {:induction false} OverridesAreTheLastWrites(ops: seq<Op>, k: string)
    ensures Proper(Overrides(ops))
    ensures PriceAt(Overrides(ops), k) == LastOn(ops, k)
  {
    OverridesAreProper(ops);
    hide Lower, Proper;
    if ops != [] {
      OverridesAreTheLastWrites(ops[..|ops| - 1], k);
    }
  }

  /** Two histories that leave every key the same give every model the same price from the overrides,
      provided longest keys that tie agree. */
  lemma {:induction false} HistoriesAgree(ops: seq<Op>, ops': seq<Op>, s: Table, b: Table, model: string)
    requires Proper(s) && Proper(b) && forall k :: LastOn(ops, k) == LastOn(ops', k)
    requires Proper(Overrides(ops)) && TiesAgree(Overrides(ops), Lower(model))
    ensures Proper(Overrides(ops')) && Resolve(Overrides(ops'), s, b, model) == Resolve(Overrides(ops), s, b, model)
  {
    hide Lower, Best, Search, Proper, Overrides, LastOn, TiesAgree;
    var o, o' := Overrides(ops), Overrides(ops');
    OverridesAreTheLastWrites(ops', "");
    forall k ensures k in o.prices <==> k in o'.prices
    {
      OverridesAreTheLastWrites(ops, k);
      OverridesAreTheLastWrites(ops', k);
    }
    forall k | k in o.prices ensures o.prices[k] == o'.prices[k] {
      OverridesAreTheLastWrites(ops, k);
      OverridesAreTheLastWrites(ops', k);
    }
    assert o'.prices == o.prices;
    SameKeysSameLongest(o, o', Lower(model));
    ThreeTables(o, s, b, Lower(model));
    ThreeTables(o', s, b, Lower(model));
  }

  /** An override set for a model decides that model, whatever the other tables say; cleared, and new
      when it was set, it leaves every resolution as it was. */
  lemma {:induction false} SetAndClear(o: Table, s: Table, b: Table, model: string, p: Price, other: string)
    requires Proper(o) && Proper(s) && Proper(b)
    ensures Proper(Apply(o, Set(model, p))) && Resolve(Apply(o, Set(model, p)), s, b, model) == Resolution(p, Override)
    ensures Proper(Apply(Apply(o, Set(model, p)), Clear(model)))
    ensures Lower(model) !in o.prices ==>
      Resolve(Apply(Apply(o, Set(model, p)), Clear(model)), s, b, other) == Resolve(o, s, b, other)
  {
    hide Lower, Search, Proper;
    PutKeepsProper(o, Lower(model), p);
    DropKeepsProper(Put(o, Lower(model), p), Lower(model));
    if Lower(model) !in o.prices {
      PutThenDrop(o, Lower(model), p);
    }
  }

  // ---------------------------------------------------------------- case, and the built-in prices

  /** The same letter, in whatever case. */
  predicate SameLetter(a: char, b: char) {
    a == b || ('A' <= a <= 'Z' && b as int == a as int + 32) || ('A' <= b <= 'Z' && a as int == b as int + 32)
  }

  predicate SameButCase(s: string, t: string) {
    |s| == |t| && forall i :: 0 <= i < |s| ==> SameLetter(s[i], t[i])
  }

  /** Two texts are lower-cased alike exactly when they differ in case only. */
  lemma {:induction false} LowerIffSameButCase(s: string, t: string)
    ensures Lower(s) == Lower(t) <==> SameButCase(s, t)
  {
    if Lower(s) == Lower(t) {
      assert |s| == |Lower(s)| == |Lower(t)| == |t|;
      forall i | 0 <= i < |s| ensures SameLetter(s[i], t[i]) {
        assert Lower(s)[i] == Lower(t)[i];
      }
    }
    if SameButCase(s, t) {
      forall i | 0 <= i < |s| ensures Lower(s)[i] == Lower(t)[i] {
        assert SameLetter(s[i], t[i]);
      }
    }
  }

  /** Case makes no difference: neither to the model a price is asked for, nor to the key it is set under. */
  lemma {:induction false} CaseIsIgnored(o: Table, s: Table, b: Table, model: string, model': string, p: Price)
    requires Proper(o) && Proper(s) && Proper(b) && SameButCase(model, model')
    ensures Resolve(o, s, b, model) == Resolve(o, s, b, model')
    ensures Apply(o, Set(model, p)) == Apply(o, Set(model', p)) && Apply(o, Clear(model)) == Apply(o, Clear(model'))
  {
    LowerIffSameButCase(model, model');
  }

  lemma {:induction false} ItselfIsLongest(keys: seq<string>, k: string)
    requires k in keys && k != ""
    ensures Best(keys, k) == Some(k)
  {
    assert At(k, 0, k);
    BestIsLongest(keys, k);
    var best := Best(keys, k);
    assert best.Some? && |best.value| >= |k|;
    ContainedIsNoLonger(k, best.value);
    var i :| 0 <= i <= |k| - |best.value| && At(k, i, best.value);
    assert k[0..|k|] == k;
  }

  /** A model named as a key of the built-in table, if nothing is known of it otherwise, has that key's
      price: a shorter key it contains, as gpt-4o in gpt-4o-mini, does not take it over. */
  lemma {:induction false} BuiltinNamesPriceThemselves(k: string)
    requires k in BUILTIN.keys
    ensures var none := Table([], map[]);
            && Proper(none) && Proper(BUILTIN) && Lower(k) == k && k in BUILTIN.prices
            && Resolve(none, none, BUILTIN, k) == Resolution(BUILTIN.prices[k], Builtin)
  {
    BuiltinIsProper();
    BuiltinIsLower(k);
    ItselfIsLongest(BUILTIN.keys, k);
    hide BUILTIN, Best, Lower;
    var none := Table([], map[]);
    assert Proper(none);
    ThreeTables(none, none, BUILTIN, k);
    NothingFromNothing(k);
  }

  lemma NothingFromNothing(mid: string)
    ensures Proper(Table([], map[])) && FromTable(Table([], map[]), mid).None?
  {
  }

  lemma BuiltinIsLower(k: string)
    requires k in BUILTIN.keys
    ensures k != "" && Lower(k) == k
  {
    assert forall i :: 0 <= i < |k| ==> !('A' <= k[i] <= 'Z');
    assert forall i :: 0 <= i < |k| ==> Lower(k)[i] == k[i];
  }

  /** The built-in prices, per 1000 tokens. */
  lemma MiniIsNotFull()
    ensures var none := Table([], map[]);
            && Proper(none) && Proper(BUILTIN)
            && Resolve(none, none, BUILTIN, "gpt-4o-mini") == Resolution(Price(0.00015, 0.0006), Builtin)
            && Resolve(none, none, BUILTIN, "gpt-4o") == Resolution(Price(0.0025, 0.01), Builtin)
            && Resolve(none, none, BUILTIN, "claude-sonnet-4-5") == Resolution(Price(0.003, 0.015), Builtin)
            && Resolve(none, none, BUILTIN, "claude-3-5-haiku") == Resolution(Price(0.0008, 0.004), Builtin)
            && Resolve(none, none, BUILTIN, "titan-embed") == Resolution(Price(0.00002, 0.0), Builtin)
            && Resolve(none, none, BUILTIN, "text-embedding-3-small") == Resolution(Price(0.00002, 0.0), Builtin)
            && Resolve(none, none, BUILTIN, "gemini-2.0-flash") == Resolution(Price(0.0001, 0.0004), Builtin)
  {
    hide Resolve, Proper;
    BuiltinNamesPriceThemselves("gpt-4o-mini");
    BuiltinNamesPriceThemselves("gpt-4o");
    BuiltinNamesPriceThemselves("claude-sonnet-4-5");
    BuiltinNamesPriceThemselves("claude-3-5-haiku");
    BuiltinNamesPriceThemselves("titan-embed");
    BuiltinNamesPriceThemselves("text-embedding-3-small");
    BuiltinNamesPriceThemselves("gemini-2.0-flash");
  }

  lemma {:induction false} EmptyKeyIsNeverBest(keys: seq<string>, mid: string)
    ensures Best(keys, mid) != Some("")
  {
    if keys != [] {
      EmptyKeyIsNeverBest(keys[..|keys| - 1], mid);
    }
  }

  /** A price set under the empty text is for no model but the empty one, though every id contains it. */
  lemma {:induction false} EmptyKeyIsIgnored(o: Table, s: Table, b: Table, model: string, p: Price)
    requires Proper(o) && Proper(s) && Proper(b) && model != ""
    ensures Proper(Put(o, "", p)) && Resolve(Put(o, "", p), s, b, model) == Resolve(o, s, b, model)
    ensures Resolve(Put(o, "", p), s, b, "") == Resolution(p, Override)
  {
    PutKeepsProper(o, "", p);
    EmptyKeyChangesNothing(o, Lower(model), p);
    ThreeTables(o, s, b, Lower(model));
    ThreeTables(Put(o, "", p), s, b, Lower(model));
    assert Lower("") == "" && Lower(model) != "" by {
      assert |Lower(model)| == |model|;
    }
    hide Proper, Lower, Search, FromTable;
  }

  lemma EmptyKeyChangesNothing(t: Table, mid: string, p: Price)
    requires Proper(t) && Proper(Put(t, "", p))
    ensures FromTable(Put(t, "", p), mid) == FromTable(t, mid)
  {
    EmptyKeyIsNeverBest(t.keys, mid);
    if "" !in t.prices {
      assert (t.keys + [""])[..|t.keys|] == t.keys;
    }
  }
}
