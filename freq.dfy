/** Frequency tables over a column: value_counts(), mode()[0] and the
    orders pandas sorts tied modes by. */
module Freq {
  import opened Wrappers

  /** How often v occurs in s. */
  function Count<T(==)>(s: seq<T>, v: T): nat
  {
    if s == [] then 0 else (if s[0] == v then 1 else 0) + Count(s[1..], v)
  }

  lemma {:induction false} CountPositive<T>(s: seq<T>, v: T)
    ensures Count(s, v) > 0 <==> v in s
  {
    if s != [] {
      CountPositive(s[1..], v);
      assert s == [s[0]] + s[1..];
    }
  }

  lemma CountsPositive<T>(s: seq<T>)
    ensures forall v :: Count(s, v) > 0 <==> v in s
  {
    forall v ensures Count(s, v) > 0 <==> v in s { CountPositive(s, v); }
  }

  // ---- orders ----

  ghost predicate TotalOrder<T(!new)>(le: (T, T) -> bool)
  {
    && (forall x :: le(x, x))
    && (forall x, y :: le(x, y) && le(y, x) ==> x == y)
    && (forall x, y, z :: le(x, y) && le(y, z) ==> le(x, z))
    && (forall x, y :: le(x, y) || le(y, x))
  }

  /** Numeric order, as pandas sorts numbers. */
  predicate IntLe(a: int, b: int) { a <= b }

  /** Python's string order: code point by code point, a proper prefix first. */
  predicate LexLe(a: string, b: string)
  {
    a == [] || (b != [] && (a[0] < b[0] || (a[0] == b[0] && LexLe(a[1..], b[1..]))))
  }

  lemma IntLeTotal()
    ensures TotalOrder(IntLe)
  {
  }

  lemma {:induction false} LexLeAntisymmetric(a: string, b: string)
    requires LexLe(a, b) && LexLe(b, a)
    ensures a == b
  {
    if a != [] {
      LexLeAntisymmetric(a[1..], b[1..]);
      assert a == [a[0]] + a[1..] && b == [b[0]] + b[1..];
    }
  }

  lemma {:induction false} LexLeTransitive(a: string, b: string, c: string)
    requires LexLe(a, b) && LexLe(b, c)
    ensures LexLe(a, c)
  {
    if a != [] && b[0] == a[0] && c[0] == b[0] {
      LexLeTransitive(a[1..], b[1..], c[1..]);
    }
  }

  lemma {:induction false} LexLeTotal(a: string, b: string)
    ensures LexLe(a, b) || LexLe(b, a)
  {
    if a != [] && b != [] && a[0] == b[0] {
      LexLeTotal(a[1..], b[1..]);
    }
  }

  lemma {:induction false} LexLeReflexive(a: string)
    ensures LexLe(a, a)
  {
    if a != [] { LexLeReflexive(a[1..]); }
  }

  /** Python's string comparison is a total order. */
  lemma LexLeTotalOrder()
    ensures TotalOrder(LexLe)
  {
    forall x ensures LexLe(x, x) { LexLeReflexive(x); }
    forall x, y | LexLe(x, y) && LexLe(y, x) ensures x == y { LexLeAntisymmetric(x, y); }
    forall x, y, z | LexLe(x, y) && LexLe(y, z) ensures LexLe(x, z) { LexLeTransitive(x, y, z); }
    forall x, y ensures LexLe(x, y) || LexLe(y, x) { LexLeTotal(x, y); }
  }

  // ---- mode()[0] ----

  /** What mode()[0] returns: a value of s of highest frequency that is the
      least, under le, of all values of that frequency. */
  ghost predicate IsMode<T(!new)>(s: seq<T>, m: T, le: (T, T) -> bool)
  {
    && m in s
    && (forall v :: Count(s, v) <= Count(s, m))
    && (forall v :: Count(s, v) == Count(s, m) ==> le(m, v))
  }

  /** The most frequent of the candidates, the least under le among ties. */
  function Best<T(==,!new)>(s: seq<T>, cands: seq<T>, le: (T, T) -> bool): (m: T)
    requires |cands| > 0 && TotalOrder(le)
    ensures m in cands
    ensures forall v :: v in cands ==> Count(s, v) <= Count(s, m)
    ensures forall v :: v in cands && Count(s, v) == Count(s, m) ==> le(m, v)
    decreases |cands|
  {
    if |cands| == 1 then cands[0]
    else
      var rest := Best(s, cands[1..], le);
      var c := cands[0];
      assert forall v :: v in cands ==> v == c || v in cands[1..];
      if Count(s, c) > Count(s, rest) || (Count(s, c) == Count(s, rest) && le(c, rest)) then c
      else rest
  }

  /** pandas' mode()[0] on a non-empty column: the modes come back sorted
      and the first is taken. */
  function Mode<T(==,!new)>(s: seq<T>, le: (T, T) -> bool): (m: T)
    requires |s| > 0 && TotalOrder(le)
    ensures IsMode(s, m, le)
  {
    CountsPositive(s);
    Best(s, s, le)
  }

  /** The mode is the only value with those properties. */
  lemma ModeUnique<T(!new)>(s: seq<T>, le: (T, T) -> bool, m: T)
    requires |s| > 0 && TotalOrder(le)
    ensures IsMode(s, m, le) <==> m == Mode(s, le)
  {
    var b := Mode(s, le);
    if IsMode(s, m, le) {
      assert Count(s, m) == Count(s, b);
      assert le(m, b) && le(b, m);
    }
  }

  // ---- value_counts() ----

  /** A frequency table: (value, count) entries. */
  type Entries<T> = seq<(T, nat)>

  ghost predicate DistinctKeys<T>(e: Entries<T>)
  {
    forall i, j :: 0 <= i < j < |e| ==> e[i].0 != e[j].0
  }

  function Keys<T>(e: Entries<T>): set<T>
  {
    if e == [] then {} else {e[0].0} + Keys(e[1..])
  }

  /** The count recorded for v, 0 when v has no entry. */
  function Lookup<T(==)>(e: Entries<T>, v: T): nat
  {
    if e == [] then 0 else if e[0].0 == v then e[0].1 else Lookup(e[1..], v)
  }

  function SumCounts<T>(e: Entries<T>): nat
  {
    if e == [] then 0 else e[0].1 + SumCounts(e[1..])
  }

  /** Record one more occurrence of x. */
  function Bump<T(==)>(e: Entries<T>, x: T): Entries<T>
  {
    if e == [] then [(x, 1)]
    else if e[0].0 == x then [(x, e[0].1 + 1)] + e[1..]
    else [e[0]] + Bump(e[1..], x)
  }

  /** The position of a key's entry. */
  lemma {:induction false} KeyIndex<T>(e: Entries<T>, v: T) returns (i: nat)
    requires v in Keys(e)
    ensures i < |e| && e[i].0 == v
  {
    if e[0].0 == v {
      i := 0;
    } else {
      var j := KeyIndex(e[1..], v);
      i := j + 1;
    }
  }

  lemma {:induction false} KeysHoldEntries<T>(e: Entries<T>)
    ensures forall i :: 0 <= i < |e| ==> e[i].0 in Keys(e)
  {
    if e != [] {
      KeysHoldEntries(e[1..]);
      forall i | 0 <= i < |e| ensures e[i].0 in Keys(e) {
        if i > 0 { assert e[i] == e[1..][i - 1]; }
      }
    }
  }

  lemma {:induction false} LookupAt<T>(e: Entries<T>, i: nat)
    requires DistinctKeys(e) && i < |e|
    ensures Lookup(e, e[i].0) == e[i].1
  {
    if i > 0 {
      LookupAt(e[1..], i - 1);
    }
  }

  lemma {:induction false} BumpFacts<T>(e: Entries<T>, x: T)
    requires DistinctKeys(e)
    ensures DistinctKeys(Bump(e, x))
    ensures Keys(Bump(e, x)) == Keys(e) + {x}
    ensures forall v :: Lookup(Bump(e, x), v) == Lookup(e, v) + (if v == x then 1 else 0)
    ensures SumCounts(Bump(e, x)) == SumCounts(e) + 1
  {
    if e == [] {
    } else if e[0].0 == x {
      var b := Bump(e, x);
      assert b[1..] == e[1..];
      KeysHoldEntries(e);
    } else {
      var b := Bump(e, x);
      BumpFacts(e[1..], x);
      assert b[1..] == Bump(e[1..], x);
      forall i, j | 0 <= i < j < |b| ensures b[i].0 != b[j].0 {
        if i == 0 {
          assert b[j].0 == b[1..][j - 1].0;
          KeysHoldEntries(Bump(e[1..], x));
          assert b[j].0 in Keys(Bump(e[1..], x));
          if b[j].0 != x {
            var k := KeyIndex(e[1..], b[j].0);
            assert e[k + 1].0 == b[j].0;
          }
        } else {
          assert b[i] == b[1..][i - 1] && b[j] == b[1..][j - 1];
        }
      }
    }
  }

  /** value_counts() of a column: one entry per distinct value, carrying
      its number of occurrences; the counts add up to the column's length. */
  function Tally<T(==,!new)>(s: seq<T>): (e: Entries<T>)
    ensures DistinctKeys(e)
    ensures Keys(e) == set v | v in s
    ensures forall v :: Lookup(e, v) == Count(s, v)
    ensures SumCounts(e) == |s|
  {
    if s == [] then []
    else
      var rest := Tally(s[1..]);
      BumpFacts(rest, s[0]);
      assert forall v :: v in s <==> v == s[0] || v in s[1..];
      Bump(rest, s[0])
  }

  /** Every entry of a tally carries its value's count, which is positive. */
  lemma TallyEntries<T(!new)>(s: seq<T>)
    ensures forall i :: 0 <= i < |Tally(s)| ==> Tally(s)[i].0 in s && Tally(s)[i].1 == Count(s, Tally(s)[i].0) > 0
  {
    var e := Tally(s);
    KeysHoldEntries(e);
    forall i | 0 <= i < |e| ensures e[i].0 in s && e[i].1 == Count(s, e[i].0) > 0 {
      LookupAt(e, i);
      assert e[i].0 in Keys(e);
      CountPositive(s, e[i].0);
    }
  }

  // ---- missing values ----

  /** The present values of a column in row order (dropna()): a value is
      present exactly when some row holds it. */
  function Present<T(!new)>(col: seq<Option<T>>): (vals: seq<T>)
    ensures |vals| <= |col|
    ensures forall v :: v in vals <==> Some(v) in col
  {
    if col == [] then []
    else
      assert col == [col[0]] + col[1..];
      (if col[0].Some? then [col[0].value] else []) + Present(col[1..])
  }

  /** Rows minus non-null values is the number of missing values. */
  lemma {:induction false} PresentAndMissing<T(!new)>(col: seq<Option<T>>)
    ensures |col| - |Present(col)| == Count(col, None)
  {
    if col != [] {
      PresentAndMissing(col[1..]);
      assert col == [col[0]] + col[1..];
    }
  }

  /** A present value is counted once per row that holds it. */
  lemma {:induction false} PresentCount<T(!new)>(col: seq<Option<T>>, v: T)
    ensures Count(Present(col), v) == Count(col, Some(v))
  {
    if col != [] {
      PresentCount(col[1..], v);
      var head := if col[0].Some? then [col[0].value] else [];
      CountAppend(head, Present(col[1..]), v);
    }
  }

  lemma {:induction false} CountAppend<T>(a: seq<T>, b: seq<T>, v: T)
    ensures Count(a + b, v) == Count(a, v) + Count(b, v)
  {
    if a == [] {
      assert a + b == b;
    } else {
      assert (a + b)[1..] == a[1..] + b;
      CountAppend(a[1..], b, v);
    }
  }

  // ---- the most frequent entries of a tally ----

  /** The largest count of a tally, 0 for an empty one. */
  function MaxCount<T>(e: Entries<T>): (m: nat)
    ensures forall i :: 0 <= i < |e| ==> e[i].1 <= m
    ensures e != [] ==> exists i :: 0 <= i < |e| && e[i].1 == m
    ensures e == [] ==> m == 0
  {
    if e == [] then 0
    else
      var rest := MaxCount(e[1..]);
      assert forall i :: 1 <= i < |e| ==> e[i] == e[1..][i - 1];
      if e[0].1 >= rest then e[0].1 else rest
  }

  /** The entries whose count is c, in tally order. */
  function WithCount<T>(e: Entries<T>, c: nat): Entries<T>
  {
    if e == [] then []
    else (if e[0].1 == c then [e[0]] else []) + WithCount(e[1..], c)
  }

  lemma DistinctTail<T>(e: Entries<T>)
    requires DistinctKeys(e) && e != []
    ensures DistinctKeys(e[1..])
    ensures e[0].0 !in Keys(e[1..])
  {
    if e[0].0 in Keys(e[1..]) {
      var k := KeyIndex(e[1..], e[0].0);
    }
  }

  lemma DistinctCons<T>(x: (T, nat), e: Entries<T>)
    requires DistinctKeys(e) && x.0 !in Keys(e)
    ensures DistinctKeys([x] + e)
  {
    KeysHoldEntries(e);
    var xe := [x] + e;
    forall i, j | 0 <= i < j < |xe| ensures xe[i].0 != xe[j].0 {
      assert xe[j] == e[j - 1];
      if i > 0 { assert xe[i] == e[i - 1]; }
    }
  }

  /** A tally with distinct keys has as many keys as entries. */
  lemma {:induction false} KeysCard<T>(e: Entries<T>)
    requires DistinctKeys(e)
    ensures |Keys(e)| == |e|
  {
    if e != [] {
      DistinctTail(e);
      KeysCard(e[1..]);
    }
  }

  /** Filtering a tally by count keeps the keys distinct and keeps exactly
      the keys recorded with that count. */
  lemma {:induction false} WithCountFacts<T>(e: Entries<T>, c: nat)
    requires DistinctKeys(e)
    ensures DistinctKeys(WithCount(e, c))
    ensures forall v :: v in Keys(WithCount(e, c)) <==> v in Keys(e) && Lookup(e, v) == c
  {
    if e != [] {
      DistinctTail(e);
      WithCountFacts(e[1..], c);
      var rest := WithCount(e[1..], c);
      if e[0].1 == c {
        assert WithCount(e, c) == [e[0]] + rest;
        DistinctCons(e[0], rest);
        assert Keys(WithCount(e, c)) == {e[0].0} + Keys(rest);
      } else {
        assert WithCount(e, c) == rest;
      }
    }
  }
}
