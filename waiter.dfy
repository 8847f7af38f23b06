/** The waiter's page (the `index` view): the dropdown of tables with an
    open account, the customer name to prefill for the chosen table, and the
    menu grouped by category with the preferred categories first. */
module Waiter {
  import opened Orders
  import opened Grouping

  // ----- the dropdown of active tables ------------------------------------

  /** `query(mesa, cliente_nome).filter(status != 'Pago').distinct()`: every
      (table, name) pair of an unpaid line once, in the order first seen. */
  function ActivePairs(ls: seq<Line>): (r: seq<(int, string)>)
    ensures forall i, j :: 0 <= i < j < |r| ==> r[i] != r[j]
    ensures forall p :: p in r <==> exists k :: 0 <= k < |ls| && ls[k].status != Pago && (ls[k].table, ls[k].customer) == p
  {
    if ls == [] then []
    else
      var r := ActivePairs(ls[..|ls| - 1]);
      var l := ls[|ls| - 1];
      if l.status != Pago && (l.table, l.customer) !in r then r + [(l.table, l.customer)] else r
  }

  /** The name the dropdown shows for table `t`: the last non-empty name paired
      with it, or "" when it has none. */
  function PreferredName(pairs: seq<(int, string)>, t: int): string
  {
    if pairs == [] then ""
    else
      var p := pairs[|pairs| - 1];
      if p.0 == t && p.1 != "" then p.1 else PreferredName(pairs[..|pairs| - 1], t)
  }

  /** A non-empty preferred name is the last non-empty name paired with the
      table, and the name is non-empty whenever the table has a non-empty one. */
  lemma {:induction false} PreferredNameSpec(pairs: seq<(int, string)>, t: int)
    ensures var name := PreferredName(pairs, t);
            && (name != "" ==>
                  exists k :: 0 <= k < |pairs| && pairs[k] == (t, name)
                    && forall m :: k < m < |pairs| && pairs[m].0 == t ==> pairs[m].1 == "")
            && ((exists k :: 0 <= k < |pairs| && pairs[k].0 == t && pairs[k].1 != "") ==> name != "")
  {
    if pairs != [] {
      var init := pairs[..|pairs| - 1];
      var p := pairs[|pairs| - 1];
      PreferredNameSpec(init, t);
      if !(p.0 == t && p.1 != "") {
        var name := PreferredName(pairs, t);
        if name != "" {
          var k :| 0 <= k < |init| && init[k] == (t, name)
                   && forall m :: k < m < |init| && init[m].0 == t ==> init[m].1 == "";
          assert pairs[k] == (t, name);
        }
        if exists k :: 0 <= k < |pairs| && pairs[k].0 == t && pairs[k].1 != "" {
          var k :| 0 <= k < |pairs| && pairs[k].0 == t && pairs[k].1 != "";
          assert k < |init| && init[k] == pairs[k];
        }
      }
    }
  }

  lemma {:induction false} PreferredNameAbsent(pairs: seq<(int, string)>, t: int)
    requires forall k :: 0 <= k < |pairs| ==> pairs[k].0 != t
    ensures PreferredName(pairs, t) == ""
  {
    if pairs != [] {
      PreferredNameAbsent(pairs[..|pairs| - 1], t);
    }
  }

  lemma PreferredNameSnoc(pairs: seq<(int, string)>, p: (int, string))
    ensures forall t :: PreferredName(pairs + [p], t)
                        == if p.0 == t && p.1 != "" then p.1 else PreferredName(pairs, t)
  {
    assert (pairs + [p])[..|pairs|] == pairs;
  }

  /** The state of the loop that fills `dict_mesas` after the first `i`
      pairs: its keys, in insertion order `order`, are the tables seen so far,
      each once, each with its preferred name so far. */
  ghost predicate Collected(names: map<int, string>, order: seq<int>, pairs: seq<(int, string)>, i: nat)
    requires i <= |pairs|
  {
    && (forall t :: t in names <==> t in order)
    && (forall k :: 0 <= k < i ==> pairs[k].0 in order)
    && (forall t :: t in order ==> exists k :: 0 <= k < i && pairs[k].0 == t)
    && (forall a, b :: 0 <= a < b < |order| ==> order[a] != order[b])
    && (forall t :: t in names ==> names[t] == PreferredName(pairs[..i], t))
  }

  /** One turn: a new table gets the name, a known one only a non-empty name. */
  method Collect(names: map<int, string>, order: seq<int>, pairs: seq<(int, string)>, i: nat)
    returns (names': map<int, string>, order': seq<int>)
    requires i < |pairs| && Collected(names, order, pairs, i)
    ensures Collected(names', order', pairs, i + 1)
  {
    var t, name := pairs[i].0, pairs[i].1;
    assert pairs[..i + 1] == pairs[..i] + [pairs[i]];
    PreferredNameSnoc(pairs[..i], pairs[i]);
    names', order' := names, order;
    if t !in names {
      PreferredNameAbsent(pairs[..i], t);
      names' := names'[t := name];
      order' := order' + [t];
    }
    if name != "" {
      names' := names'[t := name];
    }
  }

  /** The loop that fills `dict_mesas`, keeping the first name and replacing
      it by every later non-empty one. */
  method CollectNames(pairs: seq<(int, string)>) returns (names: map<int, string>, order: seq<int>)
    ensures Collected(names, order, pairs, |pairs|)
  {
    names, order := map[], [];
    for i := 0 to |pairs|
      invariant Collected(names, order, pairs, i)
    {
      names, order := Collect(names, order, pairs, i);
    }
  }

  /** The rows `(mesa, nome)` of the dropdown, one per sorted table. */
  method RowsOf(sorted: seq<int>, names: map<int, string>) returns (rows: seq<(int, string)>)
    requires forall m :: 0 <= m < |sorted| ==> sorted[m] in names
    ensures |rows| == |sorted|
    ensures forall m :: 0 <= m < |rows| ==> rows[m] == (sorted[m], names[sorted[m]])
  {
    rows := [];
    for i := 0 to |sorted|
      invariant |rows| == i
      invariant forall m :: 0 <= m < i ==> rows[m] == (sorted[m], names[sorted[m]])
    {
      rows := rows + [(sorted[i], names[sorted[i]])];
    }
  }

  /** Some pair or row is for table `t`. */
  predicate HasTable(pairs: seq<(int, string)>, t: int)
  {
    exists k :: 0 <= k < |pairs| && pairs[k].0 == t
  }

  /** Rows that the dropdown's DISTINCT query can return: the pairs of
      `ActivePairs`, each once, in an order the database picks. */
  predicate IsActiveQuery(ls: seq<Line>, pairs: seq<(int, string)>)
  {
    multiset(pairs) == multiset(ActivePairs(ls))
  }

  /** On a result of the query, a table appears in the pairs exactly when it
      has a line that is not yet paid. */
  lemma ActiveQueryTables(ls: seq<Line>, pairs: seq<(int, string)>, t: int)
    requires IsActiveQuery(ls, pairs)
    ensures HasTable(pairs, t) <==> exists k :: 0 <= k < |ls| && ls[k].status != Pago && ls[k].table == t
  {
    if HasTable(pairs, t) {
      var i :| 0 <= i < |pairs| && pairs[i].0 == t;
      assert pairs[i] in multiset(pairs);
      assert pairs[i] in ActivePairs(ls);
    }
    if exists k :: 0 <= k < |ls| && ls[k].status != Pago && ls[k].table == t {
      var k :| 0 <= k < |ls| && ls[k].status != Pago && ls[k].table == t;
      var p := (ls[k].table, ls[k].customer);
      assert 0 <= k < |ls| && ls[k].status != Pago && (ls[k].table, ls[k].customer) == p;
      assert p in ActivePairs(ls);
      assert p in multiset(ActivePairs(ls));
      assert p in pairs;
      var i :| 0 <= i < |pairs| && pairs[i] == p;
      assert pairs[i].0 == t;
    }
  }

  /** `dict_mesas`, then `sorted(dict_mesas.keys())`: one row per table of an
      unpaid line, in increasing table order, with its preferred name. */
  method ActiveTables(pairs: seq<(int, string)>) returns (rows: seq<(int, string)>)
    ensures forall i, j :: 0 <= i < j < |rows| ==> rows[i].0 < rows[j].0
    ensures forall i :: 0 <= i < |rows| ==> HasTable(pairs, rows[i].0)
    ensures forall k :: 0 <= k < |pairs| ==> HasTable(rows, pairs[k].0)
    ensures forall i :: 0 <= i < |rows| ==> rows[i].1 == PreferredName(pairs, rows[i].0)
  {
    var names, order := CollectNames(pairs);
    assert pairs[..|pairs|] == pairs;
    var sorted := SortTables(order);
    forall m | 0 <= m < |sorted|
      ensures sorted[m] in names && sorted[m] in order
    {
      assert sorted[m] in sorted;
    }
    rows := RowsOf(sorted, names);
    forall k | 0 <= k < |pairs|
      ensures HasTable(rows, pairs[k].0)
    {
      var t := pairs[k].0;
      assert t in order;
      assert t in sorted;
      var i :| 0 <= i < |sorted| && sorted[i] == t;
      assert rows[i].0 == t;
    }
  }

  /** `sorted(...)` of distinct table numbers, by insertion. */
  method SortTables(order: seq<int>) returns (sorted: seq<int>)
    requires forall a, b :: 0 <= a < b < |order| ==> order[a] != order[b]
    ensures forall a, b :: 0 <= a < b < |sorted| ==> sorted[a] < sorted[b]
    ensures forall t :: t in sorted <==> t in order
  {
    sorted := [];
    for i := 0 to |order|
      invariant forall a, b :: 0 <= a < b < |sorted| ==> sorted[a] < sorted[b]
      invariant forall t :: t in sorted <==> t in order[..i]
    {
      var t := order[i];
      assert t !in order[..i];
      var j := 0;
      while j < |sorted| && sorted[j] < t
        invariant 0 <= j <= |sorted|
        invariant forall a :: 0 <= a < j ==> sorted[a] < t
      {
        j := j + 1;
      }
      assert j < |sorted| ==> sorted[j] > t;
      assert order[..i + 1] == order[..i] + [t];
      sorted := sorted[..j] + [t] + sorted[j..];
    }
    assert order[..|order|] == order;
  }

  // ----- cliente_atual ----------------------------------------------------

  /** `filter_by(mesa=t).filter(status != 'Pago').order_by(id.desc()).first()`. */
  function LatestUnpaid(ls: seq<Line>, table: int): (r: Option<Line>)
    ensures r.None? <==> forall k :: 0 <= k < |ls| ==> !(ls[k].table == table && ls[k].status != Pago)
    ensures r.Some? ==>
              && r.value in ls && r.value.table == table && r.value.status != Pago
              && forall k :: 0 <= k < |ls| && ls[k].table == table && ls[k].status != Pago ==>
                   ls[k].id <= r.value.id
  {
    if ls == [] then None
    else
      var r := LatestUnpaid(ls[..|ls| - 1], table);
      var l := ls[|ls| - 1];
      assert ls == ls[..|ls| - 1] + [l];
      if l.table == table && l.status != Pago && (r.None? || l.id > r.value.id) then Some(l) else r
  }

  /** The name prefilled for the chosen table: the customer on its newest
      unpaid line, or "". */
  function CurrentCustomer(ls: seq<Line>, table: int): string
  {
    match LatestUnpaid(ls, table)
    case Some(l) => l.customer
    case None => ""
  }

  /** With distinct ids, the prefilled name is the customer of the table's
      unpaid line with the highest id, and "" when the table has none. */
  lemma CurrentCustomerSpec(ls: seq<Line>, table: int)
    requires IdsDistinct(ls)
    ensures (forall k :: 0 <= k < |ls| ==> !(ls[k].table == table && ls[k].status != Pago))
            ==> CurrentCustomer(ls, table) == ""
    ensures forall k :: 0 <= k < |ls| && ls[k].table == table && ls[k].status != Pago
                        && (forall m :: 0 <= m < |ls| && ls[m].table == table && ls[m].status != Pago ==>
                              ls[m].id <= ls[k].id)
                        ==> CurrentCustomer(ls, table) == ls[k].customer
  {
    var r := LatestUnpaid(ls, table);
    if r.Some? {
      var k' :| 0 <= k' < |ls| && ls[k'] == r.value;
      forall k | 0 <= k < |ls| && ls[k].table == table && ls[k].status != Pago
                 && (forall m :: 0 <= m < |ls| && ls[m].table == table && ls[m].status != Pago ==>
                       ls[m].id <= ls[k].id)
        ensures CurrentCustomer(ls, table) == ls[k].customer
      {
        assert ls[k].id == ls[k'].id;
        assert k == k';
      }
    }
  }

  // ----- the menu ---------------------------------------------------------

  /** A row of the `Produto` table. */
  datatype Product = Product(id: int, name: string, price: real, category: string, description: string)

  function CategoryOf(p: Product): string
  {
    p.category
  }

  /** `ordem_preferencia`. */
  const Preference: seq<string> := ["🍔 Hambúrgueres", "🍟 Acompanhamentos", "🥤 Bebidas", "🍰 Sobremesas"]

  predicate NoRepeats(prefs: seq<string>)
  {
    forall i, j :: 0 <= i < j < |prefs| ==> prefs[i] != prefs[j]
  }

  lemma PreferenceNoRepeats()
    ensures NoRepeats(Preference)
  {
    assert forall i, j :: 0 <= i < j < |Preference| ==> Preference[i][0] != Preference[j][0];
  }

  /** A category's place in the preference list, or the list's length for
      any other category. */
  function CategoryRank(prefs: seq<string>, c: string): (r: nat)
    ensures r <= |prefs|
    ensures r < |prefs| ==> prefs[r] == c
  {
    if prefs == [] then 0 else if prefs[0] == c then 0 else 1 + CategoryRank(prefs[1..], c)
  }

  /** A category ranks at or before any place in the list that holds it. */
  lemma {:induction false} RankFirst(prefs: seq<string>, c: string, i: nat)
    requires i < |prefs| && prefs[i] == c
    ensures CategoryRank(prefs, c) <= i
  {
    if prefs[0] != c {
      RankFirst(prefs[1..], c, i - 1);
    }
  }

  /** The entries whose category is not in the preference list, in their order. */
  function Unpreferred(gs: seq<Bucket<Product, string>>, prefs: seq<string>): seq<Bucket<Product, string>>
  {
    if gs == [] then []
    else (if CategoryRank(prefs, gs[0].key) == |prefs| then [gs[0]] else []) + Unpreferred(gs[1..], prefs)
  }

  lemma {:induction false} UnpreferredAppend(a: seq<Bucket<Product, string>>, b: seq<Bucket<Product, string>>,
                                             prefs: seq<string>)
    ensures Unpreferred(a + b, prefs) == Unpreferred(a, prefs) + Unpreferred(b, prefs)
  {
    if a != [] {
      assert (a + b)[0] == a[0];
      assert (a + b)[1..] == a[1..] + b;
      UnpreferredAppend(a[1..], b, prefs);
    } else {
      assert a + b == b;
    }
  }

  lemma {:induction false} UnpreferredNone(a: seq<Bucket<Product, string>>, prefs: seq<string>)
    requires forall i :: 0 <= i < |a| ==> CategoryRank(prefs, a[i].key) < |prefs|
    ensures Unpreferred(a, prefs) == []
  {
    if a != [] {
      UnpreferredNone(a[1..], prefs);
    }
  }

  /** Moving one entry from `rest` to the end of `r` keeps the entries. */
  lemma MoveEntry(r: seq<Bucket<Product, string>>, rest: seq<Bucket<Product, string>>, j: nat)
    requires j < |rest|
    ensures multiset(r + [rest[j]]) + multiset(rest[..j] + rest[j + 1..]) == multiset(r) + multiset(rest)
  {
    assert rest == rest[..j] + [rest[j]] + rest[j + 1..];
  }

  /** Taking out one entry leaves the others in their order. */
  lemma RemoveShifts(rest: seq<Bucket<Product, string>>, j: nat)
    requires j < |rest|
    ensures var left := rest[..j] + rest[j + 1..];
            && |left| == |rest| - 1
            && forall i :: 0 <= i < |left| ==> left[i] == rest[if i < j then i else i + 1]
  {
  }

  /** Taking out one entry leaves each category still once. */
  lemma RemoveDistinct(rest: seq<Bucket<Product, string>>, j: nat)
    requires j < |rest| && DistinctKeys(rest)
    ensures DistinctKeys(rest[..j] + rest[j + 1..])
  {
    var left := rest[..j] + rest[j + 1..];
    RemoveShifts(rest, j);
    forall a, b | 0 <= a < b < |left|
      ensures left[a].key != left[b].key
    {
      assert left[a] == rest[if a < j then a else a + 1];
      assert left[b] == rest[if b < j then b else b + 1];
    }
  }

  /** What is left after popping the `p`-th preferred category ranks after it. */
  lemma RemoveRanks(rest: seq<Bucket<Product, string>>, prefs: seq<string>, p: nat, j: nat)
    requires p < |prefs| && NoRepeats(prefs) && DistinctKeys(rest)
    requires j == KeyIndex(rest, prefs[p]) && j < |rest|
    requires forall i :: 0 <= i < |rest| ==> CategoryRank(prefs, rest[i].key) >= p
    ensures var left := rest[..j] + rest[j + 1..];
            forall i :: 0 <= i < |left| ==> CategoryRank(prefs, left[i].key) >= p + 1
  {
    var left := rest[..j] + rest[j + 1..];
    PopRanks(rest, prefs, p, j);
    RemoveShifts(rest, j);
    forall i | 0 <= i < |left|
      ensures CategoryRank(prefs, left[i].key) >= p + 1
    {
      var i' := if i < j then i else i + 1;
      assert left[i] == rest[i'];
      assert rest[i'].key != rest[j].key;
    }
  }

  /** Taking out an entry of a preferred category keeps the unpreferred ones
      in their order. */
  lemma RemoveUnpreferred(rest: seq<Bucket<Product, string>>, j: nat, prefs: seq<string>)
    requires j < |rest| && CategoryRank(prefs, rest[j].key) < |prefs|
    ensures Unpreferred(rest[..j] + rest[j + 1..], prefs) == Unpreferred(rest, prefs)
  {
    var tail := [rest[j]] + rest[j + 1..];
    assert rest == rest[..j] + tail;
    assert tail[1..] == rest[j + 1..];
    assert Unpreferred(tail, prefs) == Unpreferred(rest[j + 1..], prefs);
    UnpreferredAppend(rest[..j], tail, prefs);
    UnpreferredAppend(rest[..j], rest[j + 1..], prefs);
  }

  /** One turn of the loop over the preference list: the entry of the `p`-th
      preferred category, when there is one, is the only one of rank `p`. */
  lemma PopRanks(rest: seq<Bucket<Product, string>>, prefs: seq<string>, p: nat, j: nat)
    requires p < |prefs| && NoRepeats(prefs)
    requires j == KeyIndex(rest, prefs[p])
    requires forall i :: 0 <= i < |rest| ==> CategoryRank(prefs, rest[i].key) >= p
    ensures j < |rest| ==> CategoryRank(prefs, rest[j].key) == p
    ensures forall i :: 0 <= i < |rest| && rest[i].key != prefs[p] ==> CategoryRank(prefs, rest[i].key) >= p + 1
  {
    if j < |rest| {
      RankFirst(prefs, rest[j].key, p);
    }
  }

  /** After the loop: the popped categories, in preference order, then the
      rest in their own order. */
  lemma RanksJoin(a: seq<Bucket<Product, string>>, b: seq<Bucket<Product, string>>,
                  groups: seq<Bucket<Product, string>>, prefs: seq<string>)
    requires forall i, j :: 0 <= i < j < |a| ==> CategoryRank(prefs, a[i].key) < CategoryRank(prefs, a[j].key)
    requires forall i :: 0 <= i < |a| ==> CategoryRank(prefs, a[i].key) < |prefs|
    requires forall i :: 0 <= i < |b| ==> CategoryRank(prefs, b[i].key) >= |prefs|
    requires Unpreferred(b, prefs) == Unpreferred(groups, prefs)
    ensures forall i, j :: 0 <= i < j < |a + b| ==> CategoryRank(prefs, (a + b)[i].key) <= CategoryRank(prefs, (a + b)[j].key)
    ensures Unpreferred(a + b, prefs) == Unpreferred(groups, prefs)
  {
    UnpreferredNone(a, prefs);
    UnpreferredAppend(a, b, prefs);
    forall i, j | 0 <= i < j < |a + b|
      ensures CategoryRank(prefs, (a + b)[i].key) <= CategoryRank(prefs, (a + b)[j].key)
    {
      if j < |a| {
        assert (a + b)[i] == a[i] && (a + b)[j] == a[j];
      } else if i < |a| {
        assert (a + b)[i] == a[i] && (a + b)[j] == b[j - |a|];
      } else {
        assert (a + b)[i] == b[i - |a|] && (a + b)[j] == b[j - |a|];
      }
    }
  }

  /** The state of the loop over the preference list after `p` turns: the
      categories popped so far (`r`) are the first `p` preferred ones that
      exist, in preference order, and `rest` holds all the others. */
  predicate Arranged(r: seq<Bucket<Product, string>>, rest: seq<Bucket<Product, string>>,
                     groups: seq<Bucket<Product, string>>, prefs: seq<string>, p: nat)
  {
    && multiset(r) + multiset(rest) == multiset(groups)
    && DistinctKeys(rest)
    && (forall i :: 0 <= i < |r| ==> CategoryRank(prefs, r[i].key) < p)
    && (forall i, j :: 0 <= i < j < |r| ==> CategoryRank(prefs, r[i].key) < CategoryRank(prefs, r[j].key))
    && (forall i :: 0 <= i < |rest| ==> CategoryRank(prefs, rest[i].key) >= p)
    && Unpreferred(rest, prefs) == Unpreferred(groups, prefs)
  }

  /** Appending the entry of rank `p` keeps the popped entries in rank order. */
  lemma AppendPopped(r: seq<Bucket<Product, string>>, x: Bucket<Product, string>, prefs: seq<string>, p: nat)
    requires forall i :: 0 <= i < |r| ==> CategoryRank(prefs, r[i].key) < p
    requires forall i, j :: 0 <= i < j < |r| ==> CategoryRank(prefs, r[i].key) < CategoryRank(prefs, r[j].key)
    requires CategoryRank(prefs, x.key) == p
    ensures forall i :: 0 <= i < |r + [x]| ==> CategoryRank(prefs, (r + [x])[i].key) < p + 1
    ensures forall i, j :: 0 <= i < j < |r + [x]| ==> CategoryRank(prefs, (r + [x])[i].key) < CategoryRank(prefs, (r + [x])[j].key)
  {
    assert forall i :: 0 <= i < |r| ==> (r + [x])[i] == r[i];
  }

  /** One turn: `if cat in d: ordered[cat] = d.pop(cat)`. */
  method Pop(r: seq<Bucket<Product, string>>, rest: seq<Bucket<Product, string>>,
             groups: seq<Bucket<Product, string>>, prefs: seq<string>, p: nat)
    returns (r': seq<Bucket<Product, string>>, rest': seq<Bucket<Product, string>>)
    requires p < |prefs| && NoRepeats(prefs) && Arranged(r, rest, groups, prefs, p)
    ensures Arranged(r', rest', groups, prefs, p + 1)
  {
    var j := KeyIndex(rest, prefs[p]);
    PopRanks(rest, prefs, p, j);
    if j < |rest| {
      MoveEntry(r, rest, j);
      RemoveDistinct(rest, j);
      RemoveRanks(rest, prefs, p, j);
      RemoveUnpreferred(rest, j, prefs);
      AppendPopped(r, rest[j], prefs, p);
      r' := r + [rest[j]];
      rest' := rest[..j] + rest[j + 1..];
    } else {
      r', rest' := r, rest;
    }
  }

  /** The loop over the preference list that pops each present category into
      the ordered menu, then `update` with the categories left. */
  method OrderCategories(groups: seq<Bucket<Product, string>>, prefs: seq<string>)
    returns (r: seq<Bucket<Product, string>>)
    requires DistinctKeys(groups) && NoRepeats(prefs)
    ensures multiset(r) == multiset(groups)
    ensures forall i, j :: 0 <= i < j < |r| ==> CategoryRank(prefs, r[i].key) <= CategoryRank(prefs, r[j].key)
    ensures Unpreferred(r, prefs) == Unpreferred(groups, prefs)
  {
    var rest := groups;
    r := [];
    for p := 0 to |prefs|
      invariant Arranged(r, rest, groups, prefs, p)
    {
      r, rest := Pop(r, rest, groups, prefs, p);
    }
    RanksJoin(r, rest, groups, prefs);
    r := r + rest;
  }

  /** The menu: products grouped by category in the order first seen, then
      the preferred categories moved to the front in their fixed order. */
  method Menu(products: seq<Product>) returns (menu: seq<Bucket<Product, string>>)
    ensures multiset(menu) == multiset(Grouped(products, CategoryOf))
    ensures forall i, j :: 0 <= i < j < |menu| ==> CategoryRank(Preference, menu[i].key) <= CategoryRank(Preference, menu[j].key)
    ensures Unpreferred(menu, Preference) == Unpreferred(Grouped(products, CategoryOf), Preference)
  {
    var groups := GroupBy(products, CategoryOf);
    GroupedDistinct(products, CategoryOf);
    PreferenceNoRepeats();
    menu := OrderCategories(groups, Preference);
  }
}
