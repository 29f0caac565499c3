/**
 * The index-to-name catalogs (presets and sources) the client keeps.  They
 * are Python dictionaries, so they remember insertion order: an entry keeps
 * its position when its name is overwritten and a new index goes at the end.
 * A catalog is modelled as its list of items in that order.
 */
module Catalog {
  import opened Wrappers

  type Entry = (int, string)
  type Catalog = seq<Entry>

  /** No index appears twice. */
  predicate Valid(c: Catalog) {
    forall i, j | 0 <= i < j < |c| :: c[i].0 != c[j].0
  }

  predicate HasKey(c: Catalog, k: int) {
    exists i | 0 <= i < |c| :: c[i].0 == k
  }

  /** Position of index `k`, or `|c|` when it is absent. */
  function Position(c: Catalog, k: int): (p: nat)
    ensures p <= |c|
    ensures p < |c| ==> c[p].0 == k
    ensures forall i | 0 <= i < p :: c[i].0 != k
  {
    if c == [] then 0 else if c[0].0 == k then 0 else 1 + Position(c[1..], k)
  }

  /** `dict.get(k)`. */
  function Get(c: Catalog, k: int): Option<string> {
    var p := Position(c, k);
    if p < |c| then Some(c[p].1) else None
  }

  /** `Get` finds an index exactly when the catalog lists it, and reads a listed entry. */
  lemma GetSpec(c: Catalog, k: int)
    ensures Get(c, k).Some? <==> HasKey(c, k)
    ensures Get(c, k).Some? ==> (k, Get(c, k).value) in c
  {
  }

  /** In a valid catalog the name stored at a listed index is what `Get` reads. */
  lemma GetAt(c: Catalog, i: nat)
    requires Valid(c) && i < |c|
    ensures Get(c, c[i].0) == Some(c[i].1)
  {
    var p := Position(c, c[i].0);
    assert p <= i;
    assert p == i;
  }

  /** `d[k] = name`: overwrite in place, or append a new entry. */
  function Put(c: Catalog, k: int, name: string): Catalog {
    var p := Position(c, k);
    if p < |c| then c[p := (k, name)] else c + [(k, name)]
  }

  /**
   * After `d[k] = name` the catalog is still a dictionary, `k` reads `name`,
   * every other index reads what it read before, an existing entry keeps
   * its place and a new one goes last.
   */
  lemma PutSpec(c: Catalog, k: int, name: string)
    requires Valid(c)
    ensures Valid(Put(c, k, name))
    ensures Get(Put(c, k, name), k) == Some(name)
    ensures forall j | j != k :: Get(Put(c, k, name), j) == Get(c, j)
    ensures HasKey(c, k) ==> |Put(c, k, name)| == |c|
                             && forall i | 0 <= i < |c| :: Put(c, k, name)[i].0 == c[i].0
    ensures !HasKey(c, k) ==> Put(c, k, name) == c + [(k, name)]
  {
    var p := Position(c, k);
    if p < |c| {
      OverwriteFacts(c, p, name);
    } else {
      AppendFacts(c, k, name);
    }
  }

  lemma OverwriteFacts(c: Catalog, p: nat, name: string)
    requires Valid(c) && p < |c|
    ensures var r := c[p := (c[p].0, name)];
      Valid(r) && Get(r, c[p].0) == Some(name)
      && forall j | j != c[p].0 :: Get(r, j) == Get(c, j)
  {
    var k := c[p].0;
    var r := c[p := (k, name)];
    forall j ensures Position(r, j) == Position(c, j) {
      PositionUpdate(c, p, k, name, j);
    }
  }

  lemma AppendFacts(c: Catalog, k: int, name: string)
    requires Valid(c) && !HasKey(c, k)
    ensures var r := c + [(k, name)];
      Valid(r) && Get(r, k) == Some(name)
      && forall j | j != k :: Get(r, j) == Get(c, j)
  {
    var r := c + [(k, name)];
    forall j ensures Position(r, j) == if Position(c, j) < |c| then Position(c, j) else if k == j then |c| else |c| + 1 {
      PositionAppend(c, (k, name), j);
    }
  }

  lemma {:induction false} PositionUpdate(c: Catalog, p: nat, k: int, name: string, j: int)
    requires p < |c| && c[p].0 == k
    ensures Position(c[p := (k, name)], j) == Position(c, j)
  {
    if p > 0 && c[0].0 != j {
      assert c[p := (k, name)][1..] == c[1..][p - 1 := (k, name)];
      PositionUpdate(c[1..], p - 1, k, name, j);
    }
  }

  lemma {:induction false} PositionAppend(c: Catalog, e: Entry, j: int)
    ensures Position(c + [e], j)
         == if Position(c, j) < |c| then Position(c, j) else if e.0 == j then |c| else |c| + 1
  {
    if c != [] && c[0].0 != j {
      assert (c + [e])[1..] == c[1..] + [e];
      PositionAppend(c[1..], e, j);
    } else if c == [] && e.0 != j {
      assert ([e])[1..] == [];
    }
  }

  /** Writing the same name twice leaves the catalog as one write does. */
  lemma PutTwice(c: Catalog, k: int, name: string)
    requires Valid(c)
    ensures Put(Put(c, k, name), k, name) == Put(c, k, name)
  {
    PutSpec(c, k, name);
    var r := Put(c, k, name);
    GetSpec(r, k);
    var p := Position(r, k);
    assert r[p] == (k, name);
    assert r[p := (k, name)] == r;
  }

  /** Of two writes to the same index, the later one wins. */
  lemma PutOverwrites(c: Catalog, k: int, a: string, b: string)
    requires Valid(c)
    ensures Get(Put(Put(c, k, a), k, b), k) == Some(b)
    ensures forall j | j != k :: Get(Put(Put(c, k, a), k, b), j) == Get(c, j)
  {
    PutSpec(c, k, a);
    PutSpec(Put(c, k, a), k, b);
  }

  /** The first index, in insertion order, whose name is `name`. */
  function FirstKeyOf(c: Catalog, name: string): (r: Option<int>)
    ensures r.None? <==> forall i | 0 <= i < |c| :: c[i].1 != name
    ensures r.Some? ==> exists i | 0 <= i < |c| :: c[i] == (r.value, name)
                           && forall j | 0 <= j < i :: c[j].1 != name
  {
    if c == [] then None
    else if c[0].1 == name then
      assert c[0] == (c[0].0, name);
      Some(c[0].0)
    else
      var r := FirstKeyOf(c[1..], name);
      if r.Some? then
        var i :| 0 <= i < |c| - 1 && c[1..][i] == (r.value, name)
                 && forall j | 0 <= j < i :: c[1..][j].1 != name;
        assert c[i + 1] == (r.value, name);
        r
      else
        r
  }

  // ---- Items sorted by index, as `sorted(d.items())` returns them ----

  predicate SortedByKey(c: Catalog) {
    forall i, j | 0 <= i < j < |c| :: c[i].0 <= c[j].0
  }

  /** `c` with `e` placed before the first entry whose index is not below its own. */
  function InsertSorted(e: Entry, c: Catalog): (r: Catalog)
    ensures multiset(r) == multiset(c) + multiset{e}
    ensures forall i | 0 <= i < |r| :: r[i] == e || r[i] in c
  {
    if c == [] then [e]
    else if e.0 <= c[0].0 then [e] + c
    else
      assert c == [c[0]] + c[1..];
      [c[0]] + InsertSorted(e, c[1..])
  }

  /** An entry whose index is at most every index of a sorted catalog can go in front. */
  lemma ConsSorted(x: Entry, t: Catalog)
    requires SortedByKey(t) && forall i | 0 <= i < |t| :: x.0 <= t[i].0
    ensures SortedByKey([x] + t)
  {
    var r := [x] + t;
    forall i, j | 0 <= i < j < |r| ensures r[i].0 <= r[j].0 {
      assert r[j] == t[j - 1];
      if i > 0 {
        assert r[i] == t[i - 1];
      }
    }
  }

  /** Inserting into a sorted catalog keeps it sorted. */
  lemma {:induction false} InsertSortedSorted(e: Entry, c: Catalog)
    requires SortedByKey(c)
    ensures SortedByKey(InsertSorted(e, c))
    decreases |c|
  {
    if c == [] {
    } else if e.0 <= c[0].0 {
      ConsSorted(e, c);
    } else {
      var rest := c[1..];
      InsertSortedSorted(e, rest);
      var t := InsertSorted(e, rest);
      forall i | 0 <= i < |t| ensures c[0].0 <= t[i].0 {
        if t[i] != e {
          var j :| 0 <= j < |rest| && rest[j] == t[i];
          assert c[j + 1] == t[i];
        }
      }
      ConsSorted(c[0], t);
    }
  }

  /** The entries of `c` ordered by index. */
  function SortedItems(c: Catalog): (r: Catalog)
    ensures SortedByKey(r)
    ensures multiset(r) == multiset(c)
  {
    if c == [] then []
    else
      assert c == [c[0]] + c[1..];
      InsertSortedSorted(c[0], SortedItems(c[1..]));
      InsertSorted(c[0], SortedItems(c[1..]))
  }

  /** Sorting keeps exactly the entries: an index reads the same name before and after. */
  lemma SortedItemsSameEntries(c: Catalog, e: Entry)
    ensures e in SortedItems(c) <==> e in c
  {
    assert e in SortedItems(c) <==> e in multiset(SortedItems(c));
    assert e in c <==> e in multiset(c);
  }

  /** In a valid catalog, `Get` reads a name exactly when that entry is listed. */
  lemma GetIffListed(c: Catalog, k: int, name: string)
    requires Valid(c)
    ensures Get(c, k) == Some(name) <==> (k, name) in c
  {
    GetSpec(c, k);
    if (k, name) in c {
      var i :| 0 <= i < |c| && c[i] == (k, name);
      GetAt(c, i);
    }
  }

  /** A valid catalog without its first entry is valid and does not list that entry's index. */
  lemma TailValid(c: Catalog)
    requires Valid(c) && c != []
    ensures Valid(c[1..]) && !HasKey(c[1..], c[0].0)
  {
    var rest := c[1..];
    forall i, j | 0 <= i < j < |rest| ensures rest[i].0 != rest[j].0 {
      assert rest[i] == c[i + 1] && rest[j] == c[j + 1];
    }
    forall i | 0 <= i < |rest| ensures rest[i].0 != c[0].0 {
      assert rest[i] == c[i + 1];
    }
  }

  /** An entry whose index is not yet listed can go in front of a valid catalog. */
  lemma ConsValid(x: Entry, t: Catalog)
    requires Valid(t) && !HasKey(t, x.0)
    ensures Valid([x] + t)
  {
    var r := [x] + t;
    forall i, j | 0 <= i < j < |r| ensures r[i].0 != r[j].0 {
      assert r[j] == t[j - 1];
      if i > 0 {
        assert r[i] == t[i - 1];
      }
    }
  }

  lemma {:induction false} InsertSortedValid(e: Entry, c: Catalog)
    requires Valid(c) && !HasKey(c, e.0)
    ensures Valid(InsertSorted(e, c))
  {
    if c == [] {
    } else if e.0 <= c[0].0 {
      ConsValid(e, c);
    } else {
      var rest := c[1..];
      TailValid(c);
      forall i | 0 <= i < |rest| ensures rest[i].0 != e.0 {
        assert rest[i] == c[i + 1];
      }
      InsertSortedValid(e, rest);
      var t := InsertSorted(e, rest);
      forall i | 0 <= i < |t| ensures t[i].0 != c[0].0 {
        assert t[i] in multiset(t);
        if t[i] != e {
          assert t[i] in multiset(rest);
          var j :| 0 <= j < |rest| && rest[j] == t[i];
          assert c[j + 1] == t[i];
        }
      }
      ConsValid(c[0], t);
    }
  }

  /** Sorting a valid catalog gives a valid catalog. */
  lemma {:induction false} SortedItemsValid(c: Catalog)
    requires Valid(c)
    ensures Valid(SortedItems(c))
  {
    if c != [] {
      var rest := c[1..];
      TailValid(c);
      SortedItemsValid(rest);
      var t := SortedItems(rest);
      forall i | 0 <= i < |t| ensures t[i].0 != c[0].0 {
        assert t[i] in multiset(t);
        assert t[i] in multiset(rest);
        var j :| 0 <= j < |rest| && rest[j] == t[i];
        assert c[j + 1] == t[i];
      }
      InsertSortedValid(c[0], t);
    }
  }

  /** Sorting a valid catalog by index changes no lookup. */
  lemma SortedItemsGet(c: Catalog, k: int)
    requires Valid(c)
    ensures Get(SortedItems(c), k) == Get(c, k)
  {
    SortedItemsValid(c);
    var r := SortedItems(c);
    GetSpec(c, k);
    GetSpec(r, k);
    if Get(c, k).Some? {
      GetIffListed(c, k, Get(c, k).value);
      SortedItemsSameEntries(c, (k, Get(c, k).value));
      GetIffListed(r, k, Get(c, k).value);
    } else if Get(r, k).Some? {
      GetIffListed(r, k, Get(r, k).value);
      SortedItemsSameEntries(c, (k, Get(r, k).value));
      GetIffListed(c, k, Get(r, k).value);
    }
  }

  // ---- `dict(items)`: the dictionary an item list builds ----

  /** The dictionary of an item list; a later item overrides an earlier one. */
  function ToMap(c: Catalog): map<int, string> {
    if c == [] then map[] else map[c[0].0 := c[0].1] + ToMap(c[1..])
  }

  /** The dictionary of a valid catalog answers every lookup as the catalog does. */
  lemma {:induction false} ToMapGet(c: Catalog, k: int)
    requires Valid(c)
    ensures k in ToMap(c) <==> Get(c, k).Some?
    ensures k in ToMap(c) ==> ToMap(c)[k] == Get(c, k).value
  {
    if c != [] {
      TailValid(c);
      ToMapGet(c[1..], k);
    }
  }

  /** The dictionary of a valid catalog's sorted items answers every lookup as the catalog does. */
  lemma DictOfSortedItems(c: Catalog, k: int)
    requires Valid(c)
    ensures k in ToMap(SortedItems(c)) <==> Get(c, k).Some?
    ensures k in ToMap(SortedItems(c)) ==> Some(ToMap(SortedItems(c))[k]) == Get(c, k)
  {
    SortedItemsValid(c);
    SortedItemsGet(c, k);
    ToMapGet(SortedItems(c), k);
  }
}
