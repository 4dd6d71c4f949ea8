/** The query-construction layer of nico2finder/finder.py: the sort tokens,
    the SearchFilter that turns optional constraints into bracketed
    `filters[...]` parameters, and the NicoVideoFinder's response-field table
    and search-parameter assembly. The HTTP request and JSON decoding that
    follow the assembly are not part of this model. */
module Finder {
  import opened Wrappers
  import opened Text
  import opened OrderedDict

  /** A query-parameter value: the source hands ints and strings to the URL encoder. */
  datatype Value = Int(n: int) | Str(s: string)

  // ---------------------------------------------------------------------
  // Sort
  // ---------------------------------------------------------------------

  /** The `Sort` constants. */
  datatype SortOrder =
    | Oldest | Latest
    | LeastCommented | MostCommented
    | LeastPlayed | MostPlayed
    | Shortest | Longest
    | RecentCommented

  /** The wire token of a sort order: a direction sign followed by the name
      of a response field. */
  function SortToken(s: SortOrder): (t: string)
    ensures |t| >= 2 && (t[0] == '+' || t[0] == '-')
    ensures t[1..] in FieldNames
  {
    match s
    case Oldest => "+startTime"
    case Latest => "-startTime"
    case LeastCommented => "+commentCounter"
    case MostCommented => "-commentCounter"
    case LeastPlayed => "+viewCounter"
    case MostPlayed => "-viewCounter"
    case Shortest => "+lengthSeconds"
    case Longest => "-lengthSeconds"
    case RecentCommented => "-lastCommentTime"
  }

  /** The orders the documentation describes as "fewest / oldest / shortest first". */
  predicate Ascending(s: SortOrder) {
    s in {Oldest, LeastCommented, LeastPlayed, Shortest}
  }

  lemma SortTokenDirection(s: SortOrder)
    ensures SortToken(s)[0] == '+' <==> Ascending(s)
  {
  }

  lemma SortTokenInjective(a: SortOrder, b: SortOrder)
    requires SortToken(a) == SortToken(b)
    ensures a == b
  {
  }

  // ---------------------------------------------------------------------
  // SearchFilter
  // ---------------------------------------------------------------------

  /** What `tag` and `genre` accept: one scalar, or a list/tuple whose
      elements may be `None`. */
  datatype Multi = One(v: Value) | Many(items: seq<Option<Value>>)

  /** The keyword arguments of `SearchFilter.__init__`. */
  datatype FilterOptions = FilterOptions(
    userId: Option<Value>,
    leastViews: Option<Value>, mostViews: Option<Value>,
    leastComments: Option<Value>, mostComments: Option<Value>,
    leastMylists: Option<Value>, mostMylists: Option<Value>,
    shortestLength: Option<Value>, longestLength: Option<Value>,
    postedAfter: Option<Value>, postedBefore: Option<Value>,
    tag: Option<Multi>, genre: Option<Multi>)

  /** Every keyword left at its default `None`. */
  const NoFilters := FilterOptions(None, None, None, None, None, None, None, None, None, None, None, None, None)

  /** The key suffixes of the eleven scalar options, in the order the
      constructor sets them. */
  const ScalarSuffixes: seq<string> := [
    "[userId][0]",
    "[viewCounter][gte]", "[viewCounter][lte]",
    "[commentCounter][gte]", "[commentCounter][lte]",
    "[mylistCounter][gte]", "[mylistCounter][lte]",
    "[lengthSeconds][gte]", "[lengthSeconds][lte]",
    "[startTime][gte]", "[startTime][lte]"]

  /** The eleven scalar options, position by position with ScalarSuffixes. */
  function ScalarValues(o: FilterOptions): (vals: seq<Option<Value>>)
    ensures |vals| == |ScalarSuffixes|
  {
    [o.userId,
     o.leastViews, o.mostViews,
     o.leastComments, o.mostComments,
     o.leastMylists, o.mostMylists,
     o.shortestLength, o.longestLength,
     o.postedAfter, o.postedBefore]
  }

  /** The entry one option contributes: nothing for `None`. */
  function Entry(suffix: string, value: Option<Value>): Dict<Value>
  {
    if value.Some? then [("filters" + suffix, value.value)] else []
  }

  /** The effect of `__set_attr(suffix, value)` on the mapping d. */
  function Assigned(d: Dict<Value>, suffix: string, value: Option<Value>): Dict<Value>
  {
    if value.Some? then Put(d, "filters" + suffix, value.value) else d
  }

  /** The entries of the first n scalar options, in order. */
  function Scalars(vals: seq<Option<Value>>, n: nat): Dict<Value>
    requires n <= |vals| <= |ScalarSuffixes|
  {
    if n == 0 then []
    else Scalars(vals, n - 1) + Entry(ScalarSuffixes[n - 1], vals[n - 1])
  }

  /** The template `[<field>][%d]` filled with index i. */
  function IndexSuffix(field: string, i: nat): string
  {
    "[" + field + "][" + Numeral(i) + "]"
  }

  /** The entries of a list or tuple: one per non-`None` element, at the
      element's own position. */
  function Indexed(field: string, items: seq<Option<Value>>): Dict<Value>
  {
    if |items| == 0 then []
    else Indexed(field, items[..|items| - 1]) + Entry(IndexSuffix(field, |items| - 1), items[|items| - 1])
  }

  /** The entries of a `tag` or `genre` argument. */
  function Expand(field: string, m: Option<Multi>): Dict<Value>
  {
    match m
    case None => []
    case Some(One(v)) => Entry(IndexSuffix(field, 0), Some(v))
    case Some(Many(items)) => Indexed(field, items)
  }

  /** The mapping a SearchFilter built from o holds. */
  function Query(o: FilterOptions): Dict<Value>
  {
    Scalars(ScalarValues(o), 11) + Expand("tags", o.tag) + Expand("genre", o.genre)
  }

  predicate IsFilterKey(k: string) {
    |k| >= 7 && k[..7] == "filters"
  }

  /** A filter mapping: distinct keys, all of them under `filters`. */
  ghost predicate ValidQuery(d: Dict<Value>) {
    DistinctKeys(d) && forall i :: 0 <= i < |d| ==> IsFilterKey(d[i].0)
  }

  /** `__set_attr` keeps a filter mapping valid: the key it adds begins with
      `filters` and Put keeps keys distinct. */
  lemma AssignedValid(d: Dict<Value>, suffix: string, value: Option<Value>)
    requires ValidQuery(d)
    ensures ValidQuery(Assigned(d, suffix, value))
  {
    if value.Some? {
      var k := "filters" + suffix;
      var r := Put(d, k, value.value);
      assert k[..7] == "filters";
      forall i | 0 <= i < |r|
        ensures IsFilterKey(r[i].0)
      {
        assert Keys(r)[i] == r[i].0;
        if i < |d| {
          assert Keys(d)[i] == d[i].0;
        }
      }
    }
  }

  // --- facts about the scalar options ---

  lemma ScalarSuffixesDistinct()
    ensures forall i, j :: 0 <= i < j < |ScalarSuffixes| ==> ScalarSuffixes[i] != ScalarSuffixes[j]
  {
  }

  /** The eighth character after `filters` tells the option groups apart:
      the first letter of the field name. */
  lemma ScalarSuffixGroup(j: nat)
    requires j < |ScalarSuffixes|
    ensures |ScalarSuffixes[j]| > 1 && ScalarSuffixes[j][1] in "uvcmls"
  {
    assert j == 0 || j == 1 || j == 2 || j == 3 || j == 4 || j == 5 || j == 6 || j == 7 || j == 8 || j == 9 || j == 10;
  }

  /** An entry is among the first n scalar entries exactly when its option
      was given, under that option's key and with the value given. */
  lemma {:induction false} ScalarsEntries(vals: seq<Option<Value>>, n: nat)
    requires n <= |vals| <= |ScalarSuffixes|
    ensures forall e :: e in Scalars(vals, n) <==>
      exists j :: 0 <= j < n && vals[j] == Some(e.1) && e.0 == "filters" + ScalarSuffixes[j]
  {
    if n > 0 {
      ScalarsEntries(vals, n - 1);
      forall e
        ensures e in Scalars(vals, n) <==>
          exists j :: 0 <= j < n && vals[j] == Some(e.1) && e.0 == "filters" + ScalarSuffixes[j]
      {
        if e in Scalars(vals, n) && e !in Scalars(vals, n - 1) {
          assert vals[n - 1] == Some(e.1) && e.0 == "filters" + ScalarSuffixes[n - 1];
        }
      }
    }
  }

  /** Each scalar entry's key begins with `filters` and its option's suffix. */
  lemma ScalarEntryKey(vals: seq<Option<Value>>, n: nat, i: nat)
    requires n <= |vals| <= |ScalarSuffixes| && i < |Scalars(vals, n)|
    ensures exists j ::
      0 <= j < n && vals[j] == Some(Scalars(vals, n)[i].1) && Scalars(vals, n)[i].0 == "filters" + ScalarSuffixes[j]
  {
    ScalarsEntries(vals, n);
    assert Scalars(vals, n)[i] in Scalars(vals, n);
  }

  lemma {:induction false} ScalarsDistinct(vals: seq<Option<Value>>, n: nat)
    requires n <= |vals| <= |ScalarSuffixes|
    ensures DistinctKeys(Scalars(vals, n))
  {
    if n > 0 {
      ScalarsDistinct(vals, n - 1);
      ScalarSuffixesDistinct();
      var p := Scalars(vals, n - 1);
      var q := Entry(ScalarSuffixes[n - 1], vals[n - 1]);
      forall i, j | 0 <= i < |p| && 0 <= j < |q|
        ensures p[i].0 != q[j].0
      {
        ScalarEntryKey(vals, n - 1, i);
        var m :| 0 <= m < n - 1 && vals[m] == Some(p[i].1) && p[i].0 == "filters" + ScalarSuffixes[m];
        assert p[i].0[7..] == ScalarSuffixes[m];
      }
      DistinctAppend(p, q);
    }
  }

  /** What the constructor's scalar steps do, one option at a time:
      `__set_attr` on a fresh key appends its entry. */
  lemma ScalarStep(vals: seq<Option<Value>>, n: nat)
    requires n < |vals| <= |ScalarSuffixes|
    ensures Scalars(vals, n + 1) == Assigned(Scalars(vals, n), ScalarSuffixes[n], vals[n])
  {
    if vals[n].Some? {
      var k := "filters" + ScalarSuffixes[n];
      var d := Scalars(vals, n);
      ScalarSuffixesDistinct();
      forall i | 0 <= i < |d|
        ensures Keys(d)[i] != k
      {
        ScalarEntryKey(vals, n, i);
        var m :| 0 <= m < n && vals[m] == Some(d[i].1) && d[i].0 == "filters" + ScalarSuffixes[m];
        assert d[i].0[7..] == ScalarSuffixes[m] && k[7..] == ScalarSuffixes[n];
      }
      assert k !in Keys(d);
    }
  }

  /** The eleven suffixes written out, one by one. */
  lemma ScalarSuffixLiterals()
    ensures ScalarSuffixes[0] == "[userId][0]"
    ensures ScalarSuffixes[1] == "[viewCounter][gte]" && ScalarSuffixes[2] == "[viewCounter][lte]"
    ensures ScalarSuffixes[3] == "[commentCounter][gte]" && ScalarSuffixes[4] == "[commentCounter][lte]"
    ensures ScalarSuffixes[5] == "[mylistCounter][gte]" && ScalarSuffixes[6] == "[mylistCounter][lte]"
    ensures ScalarSuffixes[7] == "[lengthSeconds][gte]" && ScalarSuffixes[8] == "[lengthSeconds][lte]"
    ensures ScalarSuffixes[9] == "[startTime][gte]" && ScalarSuffixes[10] == "[startTime][lte]"
  {
  }

  /** Two `__set_attr` calls in a row: a range option's lower bound, then its
      upper bound. */
  function AssignedPair(d: Dict<Value>, lowerSuffix: string, lower: Option<Value>,
                        upperSuffix: string, upper: Option<Value>): Dict<Value>
  {
    Assigned(Assigned(d, lowerSuffix, lower), upperSuffix, upper)
  }

  /** The mapping after the constructor's eleven `__set_attr` calls, written
      with the keys and in the order the constructor uses. */
  function AssignedScalars(o: FilterOptions): Dict<Value>
  {
    var d := Assigned([], "[userId][0]", o.userId);
    var d := AssignedPair(d, "[viewCounter][gte]", o.leastViews, "[viewCounter][lte]", o.mostViews);
    var d := AssignedPair(d, "[commentCounter][gte]", o.leastComments, "[commentCounter][lte]", o.mostComments);
    var d := AssignedPair(d, "[mylistCounter][gte]", o.leastMylists, "[mylistCounter][lte]", o.mostMylists);
    var d := AssignedPair(d, "[lengthSeconds][gte]", o.shortestLength, "[lengthSeconds][lte]", o.longestLength);
    AssignedPair(d, "[startTime][gte]", o.postedAfter, "[startTime][lte]", o.postedBefore)
  }

  /** A pair of calls on the options at positions n and n+1 appends their entries. */
  lemma PairStep(vals: seq<Option<Value>>, n: nat, d: Dict<Value>, lowerSuffix: string, lower: Option<Value>,
                 upperSuffix: string, upper: Option<Value>)
    requires n + 2 <= |vals| <= |ScalarSuffixes|
    requires d == Scalars(vals, n)
    requires lowerSuffix == ScalarSuffixes[n] && lower == vals[n]
    requires upperSuffix == ScalarSuffixes[n + 1] && upper == vals[n + 1]
    ensures AssignedPair(d, lowerSuffix, lower, upperSuffix, upper) == Scalars(vals, n + 2)
  {
    ScalarStep(vals, n);
    ScalarStep(vals, n + 1);
  }

  /** The constructor's calls, in its order, build exactly the scalar entries
      of the reference mapping. */
  lemma AssignedScalarsAreScalars(o: FilterOptions)
    ensures AssignedScalars(o) == Scalars(ScalarValues(o), |ScalarSuffixes|)
  {
    var vals := ScalarValues(o);
    ScalarSuffixLiterals();
    ScalarStep(vals, 0);
    var d := Assigned([], "[userId][0]", o.userId);
    PairStep(vals, 1, d, "[viewCounter][gte]", o.leastViews, "[viewCounter][lte]", o.mostViews);
    d := AssignedPair(d, "[viewCounter][gte]", o.leastViews, "[viewCounter][lte]", o.mostViews);
    PairStep(vals, 3, d, "[commentCounter][gte]", o.leastComments, "[commentCounter][lte]", o.mostComments);
    d := AssignedPair(d, "[commentCounter][gte]", o.leastComments, "[commentCounter][lte]", o.mostComments);
    PairStep(vals, 5, d, "[mylistCounter][gte]", o.leastMylists, "[mylistCounter][lte]", o.mostMylists);
    d := AssignedPair(d, "[mylistCounter][gte]", o.leastMylists, "[mylistCounter][lte]", o.mostMylists);
    PairStep(vals, 7, d, "[lengthSeconds][gte]", o.shortestLength, "[lengthSeconds][lte]", o.longestLength);
    d := AssignedPair(d, "[lengthSeconds][gte]", o.shortestLength, "[lengthSeconds][lte]", o.longestLength);
    PairStep(vals, 9, d, "[startTime][gte]", o.postedAfter, "[startTime][lte]", o.postedBefore);
  }

  /** Options other than positions p and p+1 left `None` contribute nothing. */
  lemma {:induction false} ScalarsOnlyAt(vals: seq<Option<Value>>, p: nat, n: nat)
    requires p + 1 < n <= |vals| <= |ScalarSuffixes|
    requires forall i :: 0 <= i < n && i != p && i != p + 1 ==> vals[i].None?
    ensures Scalars(vals, n) == Entry(ScalarSuffixes[p], vals[p]) + Entry(ScalarSuffixes[p + 1], vals[p + 1])
  {
    if n == p + 2 {
      ScalarsNone(vals, p);
      assert Scalars(vals, p + 1) == Entry(ScalarSuffixes[p], vals[p]);
    } else {
      ScalarsOnlyAt(vals, p, n - 1);
      assert Entry(ScalarSuffixes[n - 1], vals[n - 1]) == [];
    }
  }

  lemma {:induction false} ScalarsNone(vals: seq<Option<Value>>, n: nat)
    requires n <= |vals| <= |ScalarSuffixes|
    requires forall i :: 0 <= i < n ==> vals[i].None?
    ensures Scalars(vals, n) == []
  {
    if n > 0 {
      ScalarsNone(vals, n - 1);
    }
  }

  // --- facts about tag and genre ---

  /** Different indices give different keys. */
  lemma IndexSuffixInjective(field: string, i: nat, j: nat)
    requires "filters" + IndexSuffix(field, i) == "filters" + IndexSuffix(field, j)
    ensures i == j
  {
    var a := "filters" + IndexSuffix(field, i);
    var b := "filters" + IndexSuffix(field, j);
    var lo := 10 + |field|;
    assert a == "filters[" + field + "][" + Numeral(i) + "]";
    assert b == "filters[" + field + "][" + Numeral(j) + "]";
    assert a[lo..|a| - 1] == Numeral(i);
    assert b[lo..|b| - 1] == Numeral(j);
    NumeralInjective(i, j);
  }

  lemma IndexKeyShape(field: string, i: nat)
    requires |field| >= 1
    ensures IsFilterKey("filters" + IndexSuffix(field, i))
    ensures |"filters" + IndexSuffix(field, i)| > 8 && ("filters" + IndexSuffix(field, i))[8] == field[0]
  {
    assert "filters" + IndexSuffix(field, i) == "filters[" + field + "][" + Numeral(i) + "]";
  }

  /** An entry is in Indexed(field, items) exactly when the element at its
      index is given, under the key of that index and with that element. */
  lemma {:induction false} IndexedEntries(field: string, items: seq<Option<Value>>)
    ensures forall e :: e in Indexed(field, items) <==>
      exists j :: 0 <= j < |items| && items[j] == Some(e.1) && e.0 == "filters" + IndexSuffix(field, j)
  {
    if |items| > 0 {
      var n := |items| - 1;
      IndexedEntries(field, items[..n]);
      forall e
        ensures e in Indexed(field, items) <==>
          exists j :: 0 <= j < |items| && items[j] == Some(e.1) && e.0 == "filters" + IndexSuffix(field, j)
      {
        if e in Indexed(field, items) {
          if e in Indexed(field, items[..n]) {
            var j :| 0 <= j < n && items[..n][j] == Some(e.1) && e.0 == "filters" + IndexSuffix(field, j);
            assert items[j] == Some(e.1);
          } else {
            assert items[n] == Some(e.1) && e.0 == "filters" + IndexSuffix(field, n);
          }
        }
        if exists j :: 0 <= j < |items| && items[j] == Some(e.1) && e.0 == "filters" + IndexSuffix(field, j) {
          var j :| 0 <= j < |items| && items[j] == Some(e.1) && e.0 == "filters" + IndexSuffix(field, j);
          if j < n {
            assert items[..n][j] == Some(e.1);
          } else if j > n {
            assert false;
          } else if e !in Indexed(field, items[..n]) {
            assert e == ("filters" + IndexSuffix(field, n), items[n].value);
          }
        }
      }
    }
  }

  lemma {:induction false} IndexedDistinct(field: string, items: seq<Option<Value>>)
    ensures DistinctKeys(Indexed(field, items))
  {
    if |items| > 0 {
      var n := |items| - 1;
      IndexedDistinct(field, items[..n]);
      IndexedEntries(field, items[..n]);
      var p := Indexed(field, items[..n]);
      var q := Entry(IndexSuffix(field, n), items[n]);
      forall i, j | 0 <= i < |p| && 0 <= j < |q|
        ensures p[i].0 != q[j].0
      {
        assert p[i] in p;
        var m :| 0 <= m < n && items[..n][m] == Some(p[i].1) && p[i].0 == "filters" + IndexSuffix(field, m);
        if p[i].0 == q[j].0 {
          IndexSuffixInjective(field, m, n);
        }
      }
      DistinctAppend(p, q);
    }
  }

  /** The key of index i holds element i when it is given and is absent when
      it is `None`: a skipped element does not shift the later indices. */
  lemma IndexedGet(field: string, items: seq<Option<Value>>, i: nat)
    requires i < |items|
    ensures Get(Indexed(field, items), "filters" + IndexSuffix(field, i)) == items[i]
  {
    var d := Indexed(field, items);
    var k := "filters" + IndexSuffix(field, i);
    IndexedEntries(field, items);
    IndexedDistinct(field, items);
    if items[i].Some? {
      assert (k, items[i].value) in d;
      var p :| 0 <= p < |d| && d[p] == (k, items[i].value);
      GetAt(d, p);
    } else if k in Keys(d) {
      var p :| 0 <= p < |d| && d[p].0 == k;
      assert d[p] in d;
      var j :| 0 <= j < |items| && items[j] == Some(d[p].1) && d[p].0 == "filters" + IndexSuffix(field, j);
      IndexSuffixInjective(field, i, j);
      assert false;
    }
  }

  function AllGiven(vs: seq<Value>): seq<Option<Value>>
  {
    seq(|vs|, i requires 0 <= i < |vs| => Some(vs[i]))
  }

  function Enumerated(field: string, vs: seq<Value>): Dict<Value>
  {
    seq(|vs|, i requires 0 <= i < |vs| => ("filters" + IndexSuffix(field, i), vs[i]))
  }

  /** A list or tuple of N given values yields exactly the keys of indices
      0..N-1, in input order, each with its value. */
  lemma {:induction false} IndexedAllGiven(field: string, vs: seq<Value>)
    ensures Indexed(field, AllGiven(vs)) == Enumerated(field, vs)
  {
    if |vs| > 0 {
      var n := |vs| - 1;
      IndexedAllGiven(field, vs[..n]);
      assert AllGiven(vs)[..n] == AllGiven(vs[..n]);
      assert Enumerated(field, vs) == Enumerated(field, vs[..n]) + [("filters" + IndexSuffix(field, n), vs[n])];
    }
  }

  /** A single scalar yields index 0 only. */
  lemma ExpandOne(field: string, v: Value)
    ensures Expand(field, Some(One(v))) == [("filters[" + field + "][0]", v)]
  {
    assert Numeral(0) == "0";
    assert "filters" + IndexSuffix(field, 0) == "filters[" + field + "][0]";
  }

  lemma ExpandEntries(field: string, m: Option<Multi>)
    requires |field| >= 1
    ensures DistinctKeys(Expand(field, m))
    ensures forall i :: 0 <= i < |Expand(field, m)| ==>
      IsFilterKey(Expand(field, m)[i].0) && |Expand(field, m)[i].0| > 8 && Expand(field, m)[i].0[8] == field[0]
  {
    match m
    case None =>
    case Some(One(v)) =>
      IndexKeyShape(field, 0);
    case Some(Many(items)) =>
      IndexedDistinct(field, items);
      IndexedEntries(field, items);
      var d := Indexed(field, items);
      forall i | 0 <= i < |d|
        ensures IsFilterKey(d[i].0) && |d[i].0| > 8 && d[i].0[8] == field[0]
      {
        assert d[i] in d;
        var j :| 0 <= j < |items| && items[j] == Some(d[i].1) && d[i].0 == "filters" + IndexSuffix(field, j);
        IndexKeyShape(field, j);
      }
  }

  lemma ScalarsShape(vals: seq<Option<Value>>, n: nat)
    requires n <= |vals| <= |ScalarSuffixes|
    ensures forall i :: 0 <= i < |Scalars(vals, n)| ==>
      IsFilterKey(Scalars(vals, n)[i].0) && |Scalars(vals, n)[i].0| > 8 && Scalars(vals, n)[i].0[8] in "uvcmls"
  {
    var d := Scalars(vals, n);
    forall i | 0 <= i < |d|
      ensures IsFilterKey(d[i].0) && |d[i].0| > 8 && d[i].0[8] in "uvcmls"
    {
      ScalarEntryKey(vals, n, i);
      var j :| 0 <= j < n && vals[j] == Some(d[i].1) && d[i].0 == "filters" + ScalarSuffixes[j];
      ScalarSuffixGroup(j);
      assert d[i].0[8] == ScalarSuffixes[j][1];
    }
  }

  /** Every filter mapping has distinct keys, all under `filters`. */
  lemma QueryValid(o: FilterOptions)
    ensures ValidQuery(Query(o))
  {
    var s := Scalars(ScalarValues(o), 11);
    var t := Expand("tags", o.tag);
    var g := Expand("genre", o.genre);
    ScalarsDistinct(ScalarValues(o), 11);
    ScalarsShape(ScalarValues(o), 11);
    ExpandEntries("tags", o.tag);
    ExpandEntries("genre", o.genre);
    DistinctAppend(s, t);
    DistinctAppend(s + t, g);
  }

  /** Every key of d has its ninth character, the first letter of its option's
      name, among the given letters. */
  ghost predicate MarkedBy(d: Dict<Value>, letters: string) {
    forall i :: 0 <= i < |d| ==> |d[i].0| > 8 && d[i].0[8] in letters
  }

  lemma MarkedAppend(a: Dict<Value>, b: Dict<Value>, la: string, lb: string)
    requires MarkedBy(a, la) && MarkedBy(b, lb)
    ensures MarkedBy(a + b, la + lb)
  {
    forall i | 0 <= i < |a + b|
      ensures |(a + b)[i].0| > 8 && (a + b)[i].0[8] in la + lb
    {
      if i < |a| {
        assert (a + b)[i] == a[i];
      } else {
        assert (a + b)[i] == b[i - |a|];
      }
    }
  }

  /** Entries of another option group bring only new keys, so `update`
      appends them. */
  lemma UpdateMarked(d: Dict<Value>, e: Dict<Value>, letters: string, letter: char)
    requires MarkedBy(d, letters) && MarkedBy(e, [letter]) && letter !in letters
    requires DistinctKeys(e)
    ensures Update(d, e) == d + e
  {
    forall i | 0 <= i < |e|
      ensures e[i].0 !in Keys(d)
    {
      forall j | 0 <= j < |d|
        ensures Keys(d)[j] != e[i].0
      {
        assert d[j].0[8] in letters;
      }
    }
    UpdateDisjoint(d, e);
  }

  /** The constructor assigns the scalar entries, then the tag entries, then
      the genre entries; none of them overwrites an earlier one. */
  lemma QueryAsBuilt(o: FilterOptions)
    ensures Update(Update(Scalars(ScalarValues(o), 11), Expand("tags", o.tag)), Expand("genre", o.genre)) == Query(o)
  {
    var s := Scalars(ScalarValues(o), 11);
    var t := Expand("tags", o.tag);
    var g := Expand("genre", o.genre);
    ScalarsShape(ScalarValues(o), 11);
    ExpandEntries("tags", o.tag);
    ExpandEntries("genre", o.genre);
    UpdateMarked(s, t, "uvcmls", 't');
    MarkedAppend(s, t, "uvcmls", "t");
    UpdateMarked(s + t, g, "uvcmls" + "t", 'g');
  }

  /** A scalar option's key holds exactly what was given for it. */
  lemma QueryScalarGet(o: FilterOptions, j: nat)
    requires j < |ScalarSuffixes|
    ensures Get(Query(o), "filters" + ScalarSuffixes[j]) == ScalarValues(o)[j]
  {
    var vals := ScalarValues(o);
    var q := Query(o);
    var k := "filters" + ScalarSuffixes[j];
    var s := Scalars(vals, 11);
    QueryValid(o);
    ScalarsEntries(vals, 11);
    ScalarSuffixGroup(j);
    ExpandEntries("tags", o.tag);
    ExpandEntries("genre", o.genre);
    assert k[8] == ScalarSuffixes[j][1];
    if vals[j].Some? {
      assert (k, vals[j].value) in s;
      var p :| 0 <= p < |s| && s[p] == (k, vals[j].value);
      assert q[p] == s[p];
      GetAt(q, p);
    } else {
      forall p | 0 <= p < |q|
        ensures q[p].0 != k
      {
        if p < |s| {
          assert q[p] == s[p] && s[p] in s;
          var m :| 0 <= m < |vals| && vals[m] == Some(s[p].1) && s[p].0 == "filters" + ScalarSuffixes[m];
          ScalarSuffixesDistinct();
          assert s[p].0[7..] == ScalarSuffixes[m] && k[7..] == ScalarSuffixes[j];
        } else if p < |s| + |Expand("tags", o.tag)| {
          assert q[p] == Expand("tags", o.tag)[p - |s|];
        } else {
          assert q[p] == Expand("genre", o.genre)[p - |s| - |Expand("tags", o.tag)|];
        }
      }
    }
  }

  // --- the properties the tests state ---

  /** With no `tag`, no `genre` and no scalar option given except the ones
      at positions p and p + 1, the mapping holds just their entries. */
  lemma QueryOfScalarPair(o: FilterOptions, p: nat)
    requires p + 1 < |ScalarSuffixes|
    requires o.tag.None? && o.genre.None?
    requires forall i :: 0 <= i < |ScalarSuffixes| && i != p && i != p + 1 ==> ScalarValues(o)[i].None?
    ensures Query(o) == Entry(ScalarSuffixes[p], ScalarValues(o)[p]) + Entry(ScalarSuffixes[p + 1], ScalarValues(o)[p + 1])
  {
    ScalarsOnlyAt(ScalarValues(o), p, 11);
  }

  /** With every option `None`, the mapping is empty. */
  lemma NoFiltersEmpty()
    ensures Query(NoFilters) == []
  {
    ScalarsNone(ScalarValues(NoFilters), 11);
  }

  /** With only `user_id` given, the mapping is exactly its one key. */
  lemma UserIdOnly(v: Value)
    ensures Query(NoFilters.(userId := Some(v))) == [("filters[userId][0]", v)]
  {
    var o := NoFilters.(userId := Some(v));
    forall i | 0 <= i < |ScalarSuffixes| && i != 0 && i != 1
      ensures ScalarValues(o)[i].None?
    {
      assert i == 2 || i == 3 || i == 4 || i == 5 || i == 6 || i == 7 || i == 8 || i == 9 || i == 10;
    }
    QueryOfScalarPair(o, 0);
    assert "filters" + ScalarSuffixes[0] == "filters[userId][0]";
  }

  /** The five range options. */
  datatype RangeField = Views | Comments | Mylists | Length | PostTime

  function RangePosition(f: RangeField): nat
  {
    match f
    case Views => 1
    case Comments => 3
    case Mylists => 5
    case Length => 7
    case PostTime => 9
  }

  /** The key suffix of a range's lower (`[gte]`) or upper (`[lte]`) bound. */
  function RangeSuffix(f: RangeField, lower: bool): string
  {
    match f
    case Views => if lower then "[viewCounter][gte]" else "[viewCounter][lte]"
    case Comments => if lower then "[commentCounter][gte]" else "[commentCounter][lte]"
    case Mylists => if lower then "[mylistCounter][gte]" else "[mylistCounter][lte]"
    case Length => if lower then "[lengthSeconds][gte]" else "[lengthSeconds][lte]"
    case PostTime => if lower then "[startTime][gte]" else "[startTime][lte]"
  }

  /** Only the lower bound lo and the upper bound hi of one range given. */
  function WithRange(f: RangeField, lo: Option<Value>, hi: Option<Value>): FilterOptions
  {
    match f
    case Views => NoFilters.(leastViews := lo, mostViews := hi)
    case Comments => NoFilters.(leastComments := lo, mostComments := hi)
    case Mylists => NoFilters.(leastMylists := lo, mostMylists := hi)
    case Length => NoFilters.(shortestLength := lo, longestLength := hi)
    case PostTime => NoFilters.(postedAfter := lo, postedBefore := hi)
  }

  // a range option's bounds sit at its position and the next one; every
  // other scalar option is left `None`
  lemma RangeOthersNone(f: RangeField, lo: Option<Value>, hi: Option<Value>)
    ensures forall i :: 0 <= i < |ScalarSuffixes| && i != RangePosition(f) && i != RangePosition(f) + 1 ==>
      ScalarValues(WithRange(f, lo, hi))[i].None?
  {
    var vals := ScalarValues(WithRange(f, lo, hi));
    forall i | 0 <= i < |ScalarSuffixes| && i != RangePosition(f) && i != RangePosition(f) + 1
      ensures vals[i].None?
    {
      assert i == 0 || i == 1 || i == 2 || i == 3 || i == 4 || i == 5 || i == 6 || i == 7 || i == 8 || i == 9 || i == 10;
      match f
      case Views =>
      case Comments =>
      case Mylists =>
      case Length =>
      case PostTime =>
    }
  }

  /** A range option yields its `[gte]` key exactly when the lower bound is
      given, its `[lte]` key exactly when the upper bound is given, with the
      values supplied, and nothing else. */
  lemma RangeOnly(f: RangeField, lo: Option<Value>, hi: Option<Value>)
    ensures Query(WithRange(f, lo, hi)) ==
      Entry(RangeSuffix(f, true), lo) + Entry(RangeSuffix(f, false), hi)
  {
    RangeOthersNone(f, lo, hi);
    QueryOfScalarPair(WithRange(f, lo, hi), RangePosition(f));
    match f
    case Views =>
    case Comments =>
    case Mylists =>
    case Length =>
    case PostTime =>
  }

  // the keys of indices 0, 1 and 2 of `tags`, written out
  lemma TagKeys()
    ensures "filters" + IndexSuffix("tags", 0) == "filters[tags][0]"
    ensures "filters" + IndexSuffix("tags", 1) == "filters[tags][1]"
    ensures "filters" + IndexSuffix("tags", 2) == "filters[tags][2]"
  {
    assert Numeral(0) == "0" && Numeral(1) == "1" && Numeral(2) == "2";
  }

  /** The list example of the tests: three tags at indices 0, 1 and 2. */
  lemma TagListExample()
    ensures Query(NoFilters.(tag := Some(Many([Some(Str("VOCALOID")), Some(Str("ミク")), Some(Str("リン"))])))) ==
      [("filters[tags][0]", Str("VOCALOID")), ("filters[tags][1]", Str("ミク")), ("filters[tags][2]", Str("リン"))]
  {
    var vs := [Str("VOCALOID"), Str("ミク"), Str("リン")];
    ScalarsNone(ScalarValues(NoFilters), 11);
    assert AllGiven(vs) == [Some(Str("VOCALOID")), Some(Str("ミク")), Some(Str("リン"))];
    IndexedAllGiven("tags", vs);
    TagKeys();
  }

  /** Assigning element i after the entries of elements 0..i-1. */
  lemma IndexedStep(d: Dict<Value>, field: string, items: seq<Option<Value>>, i: nat)
    requires i < |items|
    ensures Update(d, Indexed(field, items[..i + 1])) ==
      Assigned(Update(d, Indexed(field, items[..i])), IndexSuffix(field, i), items[i])
  {
    assert items[..i + 1][..i] == items[..i];
    assert Indexed(field, items[..i + 1]) == Indexed(field, items[..i]) + Entry(IndexSuffix(field, i), items[i]);
    if items[i].Some? {
      var k := "filters" + IndexSuffix(field, i);
      assert Entry(IndexSuffix(field, i), items[i]) == [(k, items[i].value)];
      UpdateSnoc(d, Indexed(field, items[..i]), k, items[i].value);
    } else {
      assert Indexed(field, items[..i + 1]) == Indexed(field, items[..i]);
    }
  }

  /** `SearchFilter`: built once from the keyword arguments; `get_query`
      hands out the mapping. */
  class SearchFilter {
    var filters: Dict<Value>

    ghost predicate Valid()
      reads this
    {
      ValidQuery(filters)
    }

    constructor (userId: Option<Value> := None,
                 leastViews: Option<Value> := None, mostViews: Option<Value> := None,
                 leastComments: Option<Value> := None, mostComments: Option<Value> := None,
                 leastMylists: Option<Value> := None, mostMylists: Option<Value> := None,
                 shortestLength: Option<Value> := None, longestLength: Option<Value> := None,
                 postedAfter: Option<Value> := None, postedBefore: Option<Value> := None,
                 tag: Option<Multi> := None, genre: Option<Multi> := None)
      ensures filters == Query(FilterOptions(userId, leastViews, mostViews, leastComments, mostComments,
                                             leastMylists, mostMylists, shortestLength, longestLength,
                                             postedAfter, postedBefore, tag, genre))
      ensures Valid()
    {
      filters := [];
      new;
      ghost var o := FilterOptions(userId, leastViews, mostViews, leastComments, mostComments,
                                   leastMylists, mostMylists, shortestLength, longestLength,
                                   postedAfter, postedBefore, tag, genre);
      SetAttr("[userId][0]", userId);
      SetAttr("[viewCounter][gte]", leastViews);
      SetAttr("[viewCounter][lte]", mostViews);
      SetAttr("[commentCounter][gte]", leastComments);
      SetAttr("[commentCounter][lte]", mostComments);
      SetAttr("[mylistCounter][gte]", leastMylists);
      SetAttr("[mylistCounter][lte]", mostMylists);
      SetAttr("[lengthSeconds][gte]", shortestLength);
      SetAttr("[lengthSeconds][lte]", longestLength);
      SetAttr("[startTime][gte]", postedAfter);
      SetAttr("[startTime][lte]", postedBefore);
      assert filters == AssignedScalars(o);
      AssignedScalarsAreScalars(o);
      SetAttrMultiple("tags", tag);
      SetAttrMultiple("genre", genre);
      QueryAsBuilt(o);
      QueryValid(o);
    }

    /** `__set_attr`: store the value under `filters` + key unless it is `None`. */
    method SetAttr(key: string, value: Option<Value>)
      requires Valid()
      modifies this
      ensures filters == Assigned(old(filters), key, value)
      ensures Valid()
    {
      AssignedValid(filters, key, value);
      if value.Some? {
        filters := Put(filters, "filters" + key, value.value);
      }
    }

    /** `__set_attr_multiple` with the key template `[<field>][%d]`. */
    method SetAttrMultiple(field: string, value: Option<Multi>)
      requires Valid()
      modifies this
      ensures filters == Update(old(filters), Expand(field, value))
      ensures Valid()
    {
      match value {
        case None =>
        case Some(One(v)) =>
          SetAttr(IndexSuffix(field, 0), Some(v));
        case Some(Many(items)) =>
          var i := 0;
          while i < |items|
            invariant 0 <= i <= |items|
            invariant filters == Update(old(filters), Indexed(field, items[..i]))
            invariant Valid()
          {
            SetAttr(IndexSuffix(field, i), items[i]);
            IndexedStep(old(filters), field, items, i);
            i := i + 1;
          }
          assert items[..|items|] == items;
      }
    }

    /** `get_query`: the stored mapping, unchanged. */
    method GetQuery() returns (q: Dict<Value>)
      ensures q == filters
    {
      q := filters;
    }
  }

  // ---------------------------------------------------------------------
  // NicoVideoFinder
  // ---------------------------------------------------------------------

  /** The response fields, in declaration order. */
  const FieldNames: seq<string> := [
    "contentId", "title", "description", "userId", "viewCounter",
    "mylistCounter", "lengthSeconds", "thumbnailUrl", "startTime", "threadId",
    "commentCounter", "lastCommentTime", "categoryTags", "channelId", "tags",
    "tagsExact", "lockTagsExact", "genre", "genre.keyword"]

  /** The response-field table as the constructor sets it. */
  const DefaultFields: Dict<bool> := [
    ("contentId", true), ("title", true), ("description", false), ("userId", false),
    ("viewCounter", true), ("mylistCounter", true), ("lengthSeconds", false),
    ("thumbnailUrl", false), ("startTime", true), ("threadId", false),
    ("commentCounter", true), ("lastCommentTime", false), ("categoryTags", false),
    ("channelId", false), ("tags", false), ("tagsExact", false),
    ("lockTagsExact", false), ("genre", false), ("genre.keyword", false)]

  /** The `_context` sent when no application name is given. */
  const DefaultContext := "python-nico2finder"

  const ReservedKeys: seq<string> := ["q", "targets", "fields", "_sort", "_context", "_limit"]

  lemma FieldNamesDistinct()
    ensures forall i, j :: 0 <= i < j < |FieldNames| ==> FieldNames[i] != FieldNames[j]
  {
  }

  lemma FieldNamesNoComma()
    ensures forall i :: 0 <= i < |FieldNames| ==> ',' !in FieldNames[i]
  {
  }

  /** The table after `set_response_fields(**opts)`: every known field named
      in opts takes the value given; every other field keeps its value. */
  function Overridden(fields: Dict<bool>, opts: Dict<bool>): (r: Dict<bool>)
    ensures Keys(r) == Keys(fields)
    ensures DistinctKeys(fields) ==> DistinctKeys(r)
  {
    seq(|fields|, i requires 0 <= i < |fields| =>
      (fields[i].0, match Get(opts, fields[i].0) case Some(b) => b case None => fields[i].1))
  }

  /** A lookup of a known field gives the override when there is one and the
      old value otherwise; an unknown key stays absent. */
  lemma OverriddenGet(fields: Dict<bool>, opts: Dict<bool>, k: string)
    requires DistinctKeys(fields)
    ensures Get(Overridden(fields, opts), k) ==
      if k in Keys(fields) && Get(opts, k).Some? then Get(opts, k) else Get(fields, k)
  {
    var r := Overridden(fields, opts);
    if k in Keys(fields) {
      var i :| 0 <= i < |fields| && fields[i].0 == k;
      GetAt(r, i);
      GetAt(fields, i);
    }
  }

  lemma {:induction false} GetSnoc<V>(d: Dict<V>, k: string, v: V, k': string)
    ensures Get(d + [(k, v)], k') ==
      if k' in Keys(d) then Get(d, k') else if k' == k then Some(v) else None
  {
    if |d| == 0 {
      assert Keys(d) == [];
    } else {
      assert (d + [(k, v)])[1..] == d[1..] + [(k, v)];
      assert Keys(d) == [d[0].0] + Keys(d[1..]);
      GetSnoc(d[1..], k, v, k');
    }
  }

  /** One iteration of the `set_response_fields` loop. */
  lemma OverriddenStep(fields: Dict<bool>, opts: Dict<bool>, n: nat)
    requires DistinctKeys(opts) && n < |opts|
    ensures Overridden(fields, opts[..n + 1]) ==
      if opts[n].0 in Keys(fields) then Put(Overridden(fields, opts[..n]), opts[n].0, opts[n].1)
      else Overridden(fields, opts[..n])
  {
    var (key, val) := opts[n];
    assert opts[..n + 1] == opts[..n] + [(key, val)];
    assert key !in Keys(opts[..n]);
    var a := Overridden(fields, opts[..n]);
    var b := Overridden(fields, opts[..n + 1]);
    forall i | 0 <= i < |fields|
      ensures b[i] == if fields[i].0 == key then (key, val) else a[i]
    {
      GetSnoc(opts[..n], key, val, fields[i].0);
    }
    if key in Keys(fields) {
      assert Keys(a) == Keys(fields);
      assert b == Put(a, key, val);
    } else {
      forall i | 0 <= i < |fields|
        ensures b[i] == a[i]
      {
        assert Keys(fields)[i] == fields[i].0;
      }
    }
  }

  /** `[f for f in fields if fields[f]]`, over the entries from position i on. */
  function EnabledFrom(fields: Dict<bool>, i: nat): seq<string>
    requires i <= |fields|
    decreases |fields| - i
  {
    if i == |fields| then []
    else if fields[i].1 then [fields[i].0] + EnabledFrom(fields, i + 1)
    else EnabledFrom(fields, i + 1)
  }

  /** `[f for f in fields if fields[f]]`. */
  function EnabledFields(fields: Dict<bool>): seq<string>
  {
    EnabledFrom(fields, 0)
  }

  lemma {:induction false} EnabledFromMember(fields: Dict<bool>, i: nat, f: string)
    requires i <= |fields|
    ensures f in EnabledFrom(fields, i) <==> exists j :: i <= j < |fields| && fields[j] == (f, true)
    decreases |fields| - i
  {
    if i < |fields| {
      EnabledFromMember(fields, i + 1, f);
    }
  }

  /** A field is listed exactly when it is switched on. */
  lemma EnabledFieldsMember(fields: Dict<bool>, f: string)
    requires DistinctKeys(fields)
    ensures f in EnabledFields(fields) <==> Get(fields, f) == Some(true)
  {
    EnabledFromMember(fields, 0, f);
    if f in Keys(fields) {
      var j :| 0 <= j < |fields| && fields[j].0 == f;
      GetAt(fields, j);
    } else {
      forall j | 0 <= j < |fields|
        ensures fields[j].0 != f
      {
        assert Keys(fields)[j] == fields[j].0;
      }
    }
  }

  lemma EnabledFieldsAmongKeys(fields: Dict<bool>)
    ensures forall i :: 0 <= i < |EnabledFields(fields)| ==> EnabledFields(fields)[i] in Keys(fields)
  {
    var xs := EnabledFields(fields);
    forall i | 0 <= i < |xs|
      ensures xs[i] in Keys(fields)
    {
      EnabledFromMember(fields, 0, xs[i]);
      var j :| 0 <= j < |fields| && fields[j] == (xs[i], true);
      assert Keys(fields)[j] == xs[i];
    }
  }

  /** The `fields` parameter: the enabled names joined by commas. */
  function FieldsParam(fields: Dict<bool>): string
  {
    JoinComma(EnabledFields(fields))
  }

  /** The `fields` parameter can be split back into the enabled names, and
      is empty when none is enabled. */
  lemma FieldsParamRecovers(fields: Dict<bool>)
    requires Keys(fields) == FieldNames
    ensures EnabledFields(fields) == [] ==> FieldsParam(fields) == ""
    ensures EnabledFields(fields) != [] ==> SplitComma(FieldsParam(fields)) == EnabledFields(fields)
  {
    var xs := EnabledFields(fields);
    if xs != [] {
      EnabledFieldsAmongKeys(fields);
      FieldNamesNoComma();
      SplitJoin(xs);
    }
  }

  /** The table's keys are the nineteen field names, in order. */
  lemma DefaultFieldsKeys()
    ensures Keys(DefaultFields) == FieldNames
  {
  }

  lemma DefaultFieldsDistinct()
    ensures DistinctKeys(DefaultFields)
  {
    DefaultFieldsKeys();
    FieldNamesDistinct();
    forall i, j | 0 <= i < j < |DefaultFields|
      ensures DefaultFields[i].0 != DefaultFields[j].0
    {
      assert DefaultFields[i].0 == FieldNames[i] && DefaultFields[j].0 == FieldNames[j];
    }
  }

  /** A run of disabled entries contributes nothing. */
  lemma {:induction false} EnabledSkip(fields: Dict<bool>, i: nat, j: nat)
    requires i <= j <= |fields|
    requires forall k :: i <= k < j ==> !fields[k].1
    ensures EnabledFrom(fields, i) == EnabledFrom(fields, j)
    decreases j - i
  {
    if i < j {
      EnabledSkip(fields, i + 1, j);
    }
  }

  // the defaults from entry 4 on: viewCounter, mylistCounter, startTime, commentCounter
  lemma DefaultEnabledFrom4()
    ensures EnabledFrom(DefaultFields, 4) == [DefaultFields[4].0, DefaultFields[5].0, DefaultFields[8].0, DefaultFields[10].0]
  {
    EnabledSkip(DefaultFields, 11, 19);
    EnabledSkip(DefaultFields, 9, 10);
    EnabledSkip(DefaultFields, 6, 8);
  }

  /** After construction exactly these six fields are enabled, in table order. */
  lemma DefaultEnabled()
    ensures EnabledFields(DefaultFields) ==
      ["contentId", "title", "viewCounter", "mylistCounter", "startTime", "commentCounter"]
  {
    DefaultEnabledFrom4();
    EnabledSkip(DefaultFields, 2, 4);
  }

  /** The keyword arguments of `set_response_fields(description=True, bogusField=True)`. */
  const ExampleOpts: Dict<bool> := [("description", true), ("bogusField", true)]

  /** On the defaults, the example enables `description` and keeps the field names. */
  lemma OverrideExampleKnown()
    ensures Keys(Overridden(DefaultFields, ExampleOpts)) == FieldNames
    ensures Get(Overridden(DefaultFields, ExampleOpts), "description") == Some(true)
  {
    DefaultFieldsKeys();
    DefaultFieldsDistinct();
    OverriddenGet(DefaultFields, ExampleOpts, "description");
    assert DefaultFields[2].0 == "description";
  }

  /** The unknown `bogusField` is ignored: it does not become a field. */
  lemma OverrideExampleUnknown()
    ensures Get(Overridden(DefaultFields, ExampleOpts), "bogusField") == None
  {
    DefaultFieldsKeys();
    DefaultFieldsDistinct();
    OverriddenGet(DefaultFields, ExampleOpts, "bogusField");
  }

  /** Every field other than `description` keeps its default. */
  lemma OverrideExampleOthers(k: string)
    requires k != "description"
    ensures Get(Overridden(DefaultFields, ExampleOpts), k) == Get(DefaultFields, k)
  {
    DefaultFieldsDistinct();
    OverriddenGet(DefaultFields, ExampleOpts, k);
    if k == "bogusField" {
      DefaultFieldsKeys();
      OverrideExampleUnknown();
    } else {
      assert Get(ExampleOpts, k) == None;
    }
  }

  /** The six reserved parameters of `find_video`, before the filter merge. */
  function ReservedParams(query: string, targets: string, fields: string, sort: SortOrder,
                          context: string, limit: int): (r: Dict<Value>)
    ensures Keys(r) == ReservedKeys && DistinctKeys(r)
  {
    [("q", Str(query)), ("targets", Str(targets)), ("fields", Str(fields)),
     ("_sort", Str(SortToken(sort))), ("_context", Str(context)), ("_limit", Int(limit))]
  }

  /** No reserved parameter name is a filter key, so a filter never
      overwrites one. */
  lemma ReservedNotFilterKeys(query: string, targets: string, fields: string, sort: SortOrder,
                              context: string, limit: int)
    ensures forall i :: 0 <= i < 6 ==> !IsFilterKey(ReservedParams(query, targets, fields, sort, context, limit)[i].0)
  {
    var r := ReservedParams(query, targets, fields, sort, context, limit);
    forall i | 0 <= i < 6
      ensures !IsFilterKey(r[i].0)
    {
      assert i == 0 || i == 1 || i == 2 || i == 3 || i == 4 || i == 5;
      assert r[i].0[0] != 'f' || |r[i].0| < 7;
    }
  }

  /** `NicoVideoFinder`: the response-field table and the application name. */
  class NicoVideoFinder {
    var responseFields: Dict<bool>
    var appName: string

    ghost predicate Valid()
      reads this
    {
      Keys(responseFields) == FieldNames && DistinctKeys(responseFields)
    }

    constructor (appName: Option<string> := None)
      ensures responseFields == DefaultFields
      ensures this.appName == if appName.Some? then appName.value else DefaultContext
      ensures Valid()
    {
      responseFields := DefaultFields;
      this.appName := if appName.Some? then appName.value else DefaultContext;
      new;
      DefaultFieldsKeys();
      DefaultFieldsDistinct();
    }

    /** `set_response_fields(**opts)`; keyword names never repeat. */
    method SetResponseFields(opts: Dict<bool>)
      requires Valid() && DistinctKeys(opts)
      modifies this
      ensures Valid()
      ensures responseFields == Overridden(old(responseFields), opts)
      ensures appName == old(appName)
    {
      var i := 0;
      while i < |opts|
        invariant 0 <= i <= |opts|
        invariant responseFields == Overridden(old(responseFields), opts[..i])
        invariant appName == old(appName)
      {
        var (key, val) := opts[i];
        OverriddenStep(old(responseFields), opts, i);
        if key in Keys(responseFields) {
          responseFields := Put(responseFields, key, val);
        }
        i := i + 1;
      }
      assert opts[..|opts|] == opts;
    }

    /** `current_response_fields`: the table, unchanged. */
    method CurrentResponseFields() returns (r: Dict<bool>)
      ensures r == responseFields
    {
      r := responseFields;
    }

    /** The parameter mapping `find_video` sends: the six reserved parameters,
        then the filter's entries. A valid filter never overwrites a reserved
        parameter, so the merge is a plain concatenation. */
    method FindVideoParams(query: string, targets: string := "title", filters: SearchFilter? := null,
                           sort: SortOrder := Latest, limit: int := 10) returns (params: Dict<Value>)
      ensures filters == null ==>
        params == ReservedParams(query, targets, FieldsParam(responseFields), sort, appName, limit)
      ensures filters != null ==>
        params == Update(ReservedParams(query, targets, FieldsParam(responseFields), sort, appName, limit), filters.filters)
      ensures filters != null && filters.Valid() ==>
        params == ReservedParams(query, targets, FieldsParam(responseFields), sort, appName, limit) + filters.filters
    {
      params := ReservedParams(query, targets, FieldsParam(responseFields), sort, appName, limit);
      if filters != null {
        var q := filters.GetQuery();
        if filters.Valid() {
          ReservedNotFilterKeys(query, targets, FieldsParam(responseFields), sort, appName, limit);
          UpdateDisjoint(params, q);
        }
        params := Update(params, q);
      }
    }
  }

  lemma ViewsLowerKey()
    ensures "filters" + RangeSuffix(Views, true) == "filters[viewCounter][gte]"
  {
  }

  /** The filter of the search example: `least_views=1000` alone. */
  lemma SearchExampleQuery()
    ensures Query(WithRange(Views, Some(Int(1000)), None)) == [("filters[viewCounter][gte]", Int(1000))]
  {
    RangeOnly(Views, Some(Int(1000)), None);
    ViewsLowerKey();
  }

  /** The search of "初音ミク" with `least_views=1000` on a fresh finder. */
  lemma SearchExample()
    ensures ReservedParams("初音ミク", "title", FieldsParam(DefaultFields), Latest, DefaultContext, 10)
            + Query(WithRange(Views, Some(Int(1000)), None)) ==
      [("q", Str("初音ミク")), ("targets", Str("title")),
       ("fields", Str(JoinComma(["contentId", "title", "viewCounter", "mylistCounter", "startTime", "commentCounter"]))),
       ("_sort", Str("-startTime")), ("_context", Str("python-nico2finder")), ("_limit", Int(10)),
       ("filters[viewCounter][gte]", Int(1000))]
  {
    DefaultEnabled();
    SearchExampleQuery();
  }
}
