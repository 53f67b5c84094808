/** An indentation reader for block-style YAML (YAML 1.2.2, section 8.2): a document is the forest its
    indentation spells. A list item counts half a step deeper than its dash, so that a list may stand
    at its key's own indent. */
module YamlTree {

  datatype Entry = Entry(depth: nat, text: string)
  datatype Node = Node(column: nat, text: string, children: seq<Node>)

  /** How many roots at the front are deeper than `d`. */
  function Deeper(f: seq<Node>, d: nat): (n: nat)
    ensures n <= |f| && (forall i :: 0 <= i < n ==> f[i].column > d) && (n < |f| ==> f[n].column <= d)
  {
    if f != [] && f[0].column > d then 1 + Deeper(f[1..], d) else 0
  }

  /** An entry adopts the deeper roots that follow it. */
  function Step(e: Entry, f: seq<Node>): seq<Node> {
    var n := Deeper(f, e.depth);
    [Node(e.depth, e.text, f[..n])] + f[n..]
  }

  function Forest(es: seq<Entry>): seq<Node> {
    if es == [] then [] else Step(es[0], Forest(es[1..]))
  }

  /** Siblings stand in one column, at every level. */
  predicate Uniform(f: seq<Node>) {
    forall i :: 0 <= i < |f| ==> f[i].column == f[0].column && Uniform(f[i].children)
  }

  ghost predicate AllAtLeast(es: seq<Entry>, d: nat) { forall i :: 0 <= i < |es| ==> es[i].depth >= d }

  ghost predicate AllDeeper(es: seq<Entry>, d: nat) { forall i :: 0 <= i < |es| ==> es[i].depth > d }

  lemma {:induction false} DeeperIs(f: seq<Node>, d: nat, n: nat)
    requires n <= |f| && (forall i :: 0 <= i < n ==> f[i].column > d) && (n < |f| ==> f[n].column <= d)
    ensures Deeper(f, d) == n
  {
    if n > 0 { DeeperIs(f[1..], d, n - 1); }
  }

  /** Every root is an entry, and the first root is the first entry. */
  lemma {:induction false} RootIsEntry(es: seq<Entry>, k: nat)
    requires k < |Forest(es)|
    ensures exists i :: 0 <= i < |es| && es[i] == Entry(Forest(es)[k].column, Forest(es)[k].text)
  {
    var rest := Forest(es[1..]);
    var n := Deeper(rest, es[0].depth);
    if k > 0 {
      RootIsEntry(es[1..], n + k - 1);
      assert Forest(es)[k] == rest[n + k - 1];
      var i :| 0 <= i < |es[1..]| && es[1..][i] == Entry(rest[n + k - 1].column, rest[n + k - 1].text);
      assert es[i + 1] == es[1..][i];
    }
  }

  lemma {:induction false} TakeDrop<T>(f: seq<T>, g: seq<T>, n: nat)
    requires n <= |f|
    ensures (f + g)[..n] == f[..n] && (f + g)[n..] == f[n..] + g
  {}

  lemma {:induction false} StepConcat(e: Entry, f: seq<Node>, g: seq<Node>)
    requires g != [] ==> g[0].column <= e.depth
    ensures Step(e, f + g) == Step(e, f) + g
  {
    var n := Deeper(f, e.depth);
    DeeperIs(f + g, e.depth, n);
    TakeDrop(f, g, n);
  }

  lemma {:induction false} FirstRoot(es: seq<Entry>)
    requires es != []
    ensures |Forest(es)| > 0 && Forest(es)[0].column == es[0].depth && Forest(es)[0].text == es[0].text
  {}

  /** Reading is compositional where the second part starts no deeper than anything in the first. */
  lemma {:induction false} ForestConcat(a: seq<Entry>, b: seq<Entry>)
    requires b != [] ==> AllAtLeast(a, b[0].depth)
    ensures Forest(a + b) == Forest(a) + Forest(b)
  {
    if a == [] {
      assert a + b == b;
    } else {
      ForestConcat(a[1..], b);
      assert (a + b)[1..] == a[1..] + b && (a + b)[0] == a[0];
      if b != [] { FirstRoot(b); }
      StepConcat(a[0], Forest(a[1..]), Forest(b));
    }
  }

  /** One entry with its subtree, between what comes before it and what comes after it. */
  lemma {:induction false} ForestAround(before: seq<Entry>, e: Entry, inside: seq<Entry>, after: seq<Entry>)
    requires AllAtLeast(before, e.depth) && AllDeeper(inside, e.depth) && (after != [] ==> after[0].depth <= e.depth)
    ensures Forest(before + ([e] + (inside + after))) ==
            Forest(before) + ([Node(e.depth, e.text, Forest(inside))] + Forest(after))
  {
    var es := [e] + (inside + after);
    ForestConcat(before, es);
    ForestConcat(inside, after);
    assert es[1..] == inside + after;
    var f := Forest(inside);
    forall k | 0 <= k < |f| ensures f[k].column > e.depth { RootIsEntry(inside, k); }
    DeeperIs(f + Forest(after), e.depth, |f|);
    assert (f + Forest(after))[..|f|] == f && (f + Forest(after))[|f|..] == Forest(after);
  }

  ghost predicate RootsAtLeast(f: seq<Node>, m: nat) { forall k :: 0 <= k < |f| ==> f[k].column >= m }

  /** Nothing is shallower than every root. */
  lemma {:induction false} RootsBound(es: seq<Entry>, m: nat)
    requires RootsAtLeast(Forest(es), m)
    ensures AllAtLeast(es, m)
  {
    if es != [] {
      var e, rest := es[0], Forest(es[1..]);
      var n := Deeper(rest, e.depth);
      assert Forest(es)[0].column == e.depth;
      forall k | 0 <= k < |rest| ensures rest[k].column >= m {
        if k >= n { assert Forest(es)[k - n + 1] == rest[k]; }
      }
      RootsBound(es[1..], m);
    }
  }

  lemma {:induction false} UniformAtLeast(es: seq<Entry>)
    requires es != [] && Uniform(Forest(es))
    ensures AllAtLeast(es, es[0].depth)
  {
    FirstRoot(es);
    RootsBound(es, es[0].depth);
  }

  /** How many roots, and how many entries, stand in column `m`. */
  function RootsAt(f: seq<Node>, m: nat): nat {
    if f == [] then 0 else RootsAt(f[1..], m) + if f[0].column == m then 1 else 0
  }

  function EntriesAt(es: seq<Entry>, m: nat): nat {
    if es == [] then 0 else EntriesAt(es[1..], m) + if es[0].depth == m then 1 else 0
  }

  lemma {:induction false} RootsAtDrop(f: seq<Node>, n: nat, m: nat)
    requires n <= |f| && forall i :: 0 <= i < n ==> f[i].column != m
    ensures RootsAt(f[n..], m) == RootsAt(f, m)
  {
    if n > 0 {
      RootsAtDrop(f[1..], n - 1, m);
      assert f[n..] == f[1..][n - 1..];
    }
  }

  /** An entry in the shallowest column is always a root. */
  lemma {:induction false} ShallowestAreRoots(es: seq<Entry>, m: nat)
    requires AllAtLeast(es, m)
    ensures RootsAt(Forest(es), m) == EntriesAt(es, m)
  {
    if es != [] {
      ShallowestAreRoots(es[1..], m);
      var rest := Forest(es[1..]);
      var n := Deeper(rest, es[0].depth);
      RootsAtDrop(rest, n, m);
      assert Forest(es)[1..] == rest[n..];
    }
  }

  lemma {:induction false} UniformRootsAt(f: seq<Node>, m: nat)
    requires InColumn(f, m)
    ensures RootsAt(f, m) == |f|
  {
    if f != [] { UniformRootsAt(f[1..], m); }
  }

  lemma {:induction false} EntriesAtConcat(a: seq<Entry>, b: seq<Entry>, m: nat)
    ensures EntriesAt(a + b, m) == EntriesAt(a, m) + EntriesAt(b, m)
  {
    if a == [] { assert a + b == b; }
    else { EntriesAtConcat(a[1..], b, m); assert (a + b)[1..] == a[1..] + b; }
  }

  lemma {:induction false} NoEntriesAt(es: seq<Entry>, m: nat)
    requires AllDeeper(es, m)
    ensures EntriesAt(es, m) == 0
  {
    if es != [] { NoEntriesAt(es[1..], m); }
  }

  /** A subtree to insert: one root entry and deeper ones. */
  ghost predicate IsTwig(t: seq<Entry>) { t != [] && AllDeeper(t[1..], t[0].depth) }

  lemma {:induction false} TwigForest(t: seq<Entry>)
    requires IsTwig(t)
    ensures Forest(t) == [Node(t[0].depth, t[0].text, Forest(t[1..]))]
  {
    ForestAround([], t[0], t[1..], []);
    assert [] + ([t[0]] + (t[1..] + [])) == t;
  }

  /** How many nodes a forest has. */
  function Size(f: seq<Node>): nat {
    if f == [] then 0 else 1 + Size(f[0].children) + Size(f[1..])
  }

  lemma {:induction false} SizeConcat(a: seq<Node>, b: seq<Node>)
    ensures Size(a + b) == Size(a) + Size(b)
  {
    if a == [] {
      assert a + b == b;
    } else {
      SizeConcat(a[1..], b);
      assert (a + b)[1..] == a[1..] + b && (a + b)[0] == a[0];
    }
  }

  /** Reading loses no entry. */
  lemma {:induction false} SizeForest(es: seq<Entry>)
    ensures Size(Forest(es)) == |es|
  {
    if es != [] {
      SizeForest(es[1..]);
      SizeStep(es[0], Forest(es[1..]));
    }
  }

  lemma {:induction false} SizeStep(e: Entry, f: seq<Node>)
    ensures Size(Step(e, f)) == 1 + Size(f)
  {
    var n := Deeper(f, e.depth);
    SizeConcat(f[..n], f[n..]);
    assert f == f[..n] + f[n..];
    SizeHead(Node(e.depth, e.text, f[..n]), f[n..]);
  }

  lemma {:induction false} SizeHead(n: Node, f: seq<Node>)
    ensures Size([n] + f) == 1 + Size(n.children) + Size(f)
  {
    assert ([n] + f)[1..] == f;
  }

  /** The entries at the front that are deeper than `d`, and the rest. */
  lemma {:induction false} Parted(es: seq<Entry>, d: nat) returns (x: seq<Entry>, y: seq<Entry>)
    ensures es == x + y && AllDeeper(x, d) && (y != [] ==> y[0].depth <= d)
  {
    x, y := [], es;
    while y != [] && y[0].depth > d
      invariant es == x + y && AllDeeper(x, d)
      decreases |y|
    {
      x, y := x + [y[0]], y[1..];
    }
  }

  /** A uniform forest has as many roots as entries in its first column. */
  lemma {:induction false} UniformCount(es: seq<Entry>)
    requires es != [] && Uniform(Forest(es))
    ensures AllAtLeast(es, es[0].depth) && |Forest(es)| == EntriesAt(es, es[0].depth)
    ensures InColumn(Forest(es), es[0].depth)
  {
    FirstRoot(es);
    UniformAtLeast(es);
    ShallowestAreRoots(es, es[0].depth);
    UniformRootsAt(Forest(es), es[0].depth);
  }

  lemma {:induction false} EntriesAtInsert(a: seq<Entry>, t: seq<Entry>, b: seq<Entry>, m: nat)
    ensures EntriesAt(a + (t + b), m) == EntriesAt(a + b, m) + EntriesAt(t, m)
  {
    EntriesAtConcat(t, b, m);
    EntriesAtConcat(a, t + b, m);
    EntriesAtConcat(a, b, m);
  }

  lemma {:induction false} TwigEntriesAt(t: seq<Entry>, m: nat)
    requires IsTwig(t) && t[0].depth >= m
    ensures EntriesAt(t, m) == if t[0].depth == m then 1 else 0
  {
    NoEntriesAt(t[1..], m);
  }

  /** A twig between `ks` and `x + y`: it adopts the deeper `x`. */
  lemma {:induction false} TwigInside(ks: seq<Entry>, t: seq<Entry>, x: seq<Entry>, y: seq<Entry>)
    requires IsTwig(t) && AllAtLeast(ks, t[0].depth) && AllDeeper(x, t[0].depth) && (y != [] ==> y[0].depth <= t[0].depth)
    ensures Forest(ks + (t + (x + y))) == Forest(ks) + ([Node(t[0].depth, t[0].text, Forest(t[1..] + x))] + Forest(y))
  {
    assert t + (x + y) == [t[0]] + ((t[1..] + x) + y);
    ForestAround(ks, t[0], t[1..] + x, y);
  }

  /** A list in column `t[0].depth` with a twig put between its entries `ks` and `xs`. */
  lemma {:induction false} TwigBetween(ks: seq<Entry>, t: seq<Entry>, xs: seq<Entry>)
    requires IsTwig(t) && Uniform(Forest(ks + xs)) && Uniform(Forest(t))
    requires ks + xs != [] ==> (ks + xs)[0].depth == t[0].depth
    requires xs != [] ==> xs[0].depth <= t[0].depth
    ensures Forest(ks + (t + xs)) == Forest(ks) + (Forest(t) + Forest(xs)) && Forest(ks + xs) == Forest(ks) + Forest(xs)
    ensures Uniform(Forest(ks + (t + xs)))
  {
    var d := t[0].depth;
    if ks + xs != [] {
      UniformCount(ks + xs);
      FrontPart(ks, xs, d);
    }
    assert [] + xs == xs && t[1..] + [] == t[1..];
    TwigInside(ks, t, [], xs);
    TwigForest(t);
    if xs != [] { assert (ks + xs)[|ks|] == xs[0]; }
    ForestConcat(ks, xs);
    UniformInsert(Forest(ks), Forest(t)[0], Forest(xs));
  }

  lemma {:induction false} UniformInsert(a: seq<Node>, n: Node, b: seq<Node>)
    requires Uniform(a + b) && Uniform(n.children) && InColumn(a + b, n.column)
    ensures Uniform(a + ([n] + b))
  {
    var f := a + ([n] + b);
    forall i | 0 <= i < |f| ensures f[i].column == n.column && Uniform(f[i].children) {
      if i < |a| { assert f[i] == (a + b)[i]; }
      else if i > |a| { assert f[i] == (a + b)[i - 1]; }
    }
  }

  ghost predicate Copies(b: seq<Node>, n: Node) { forall i :: 0 <= i < |b| ==> b[i] == n }

  /** The list `ks + xs` ends with what `t` reads as when `t` is put between its parts: it stands in
      `t`'s column, its second part starts there, and has nothing but copies of `t`. */
  ghost predicate Lands(ks: seq<Entry>, t: seq<Entry>, xs: seq<Entry>)
    requires IsTwig(t)
  {
    && (ks + xs != [] ==> (ks + xs)[0].depth == t[0].depth)
    && (xs != [] ==> xs[0].depth <= t[0].depth)
    && Copies(Forest(xs), Node(t[0].depth, t[0].text, Forest(t[1..])))
  }

  /** The twig put between is the list's new last sibling, and siblings stand in one column. */
  ghost predicate Extended(ks: seq<Entry>, t: seq<Entry>, xs: seq<Entry>) {
    Uniform(Forest(ks + (t + xs))) && Forest(ks + (t + xs)) == Forest(ks + xs) + Forest(t)
  }

  /** The heart of the editor: a subtree put into a sibling list becomes its last sibling exactly then. */
  lemma {:induction false} InsertTwig(ks: seq<Entry>, t: seq<Entry>, xs: seq<Entry>)
    requires IsTwig(t) && Uniform(Forest(ks + xs)) && Uniform(Forest(t))
    ensures Extended(ks, t, xs) <==> Lands(ks, t, xs)
  {
    if Lands(ks, t, xs) { LandsExtends(ks, t, xs); }
    if Extended(ks, t, xs) { LandsOnly(ks, t, xs); }
  }

  lemma {:induction false} LandsExtends(ks: seq<Entry>, t: seq<Entry>, xs: seq<Entry>)
    requires IsTwig(t) && Uniform(Forest(ks + xs)) && Uniform(Forest(t)) && Lands(ks, t, xs)
    ensures Extended(ks, t, xs)
  {
    var item := Node(t[0].depth, t[0].text, Forest(t[1..]));
    TwigForest(t);
    TwigBetween(ks, t, xs);
    Rotate(Forest(xs), item);
    Moved(Forest(ks), item, Forest(xs));
  }

  lemma {:induction false} Moved(a: seq<Node>, n: Node, b: seq<Node>)
    requires [n] + b == b + [n]
    ensures a + ([n] + b) == (a + b) + [n]
  {
    assert a + (b + [n]) == (a + b) + [n];
  }

  lemma {:induction false} Rotate(b: seq<Node>, n: Node)
    ensures [n] + b == b + [n] <==> Copies(b, n)
  {
    if [n] + b == b + [n] && b != [] {
      assert ([n] + b)[0] == b[0];
      forall i | 0 <= i < |b| - 1 ensures b[i + 1] == b[i] { assert ([n] + b)[i + 1] == b[i]; }
      Constant(b, n);
    }
  }

  lemma {:induction false} Constant(b: seq<Node>, n: Node)
    requires b != [] ==> b[0] == n
    requires forall i, j :: 0 <= i < |b| && i + 1 == j < |b| ==> b[j] == b[i]
    ensures Copies(b, n)
  {
    if |b| > 1 {
      assert b[1] == b[0];
      Constant(b[1..], n);
      forall i | 0 <= i < |b| ensures b[i] == n { if i > 0 { assert b[i] == b[1..][i - 1]; } }
    }
  }

  lemma {:induction false} LandsOnly(ks: seq<Entry>, t: seq<Entry>, xs: seq<Entry>)
    requires IsTwig(t) && Uniform(Forest(ks + xs)) && Uniform(Forest(t)) && Extended(ks, t, xs)
    ensures Lands(ks, t, xs)
  {
    var f := Forest(ks + (t + xs));
    TwigForest(t);
    if ks + xs != [] {
      FirstRoot(ks + xs);
      assert f[|f| - 1].column == t[0].depth && f[0] == Forest(ks + xs)[0];
      NothingUnder(ks, t, xs);
      TwigBetween(ks, t, xs);
      CommonFront(Forest(ks), Forest(t) + Forest(xs), Forest(xs) + Forest(t));
      Rotate(Forest(xs), Forest(t)[0]);
    }
  }

  lemma {:induction false} CommonFront(a: seq<Node>, b: seq<Node>, c: seq<Node>)
    requires a + b == a + c
    ensures b == c
  {
    assert (a + b)[|a|..] == b && (a + c)[|a|..] == c;
  }

  ghost predicate InColumn(f: seq<Node>, d: nat) { forall i :: 0 <= i < |f| ==> f[i].column == d }

  /** Nothing after the twig hangs below it. */
  lemma {:induction false} NothingUnder(ks: seq<Entry>, t: seq<Entry>, xs: seq<Entry>)
    requires IsTwig(t) && ks + xs != [] && (ks + xs)[0].depth == t[0].depth && Uniform(Forest(ks + xs))
    requires Forest(ks + (t + xs)) == Forest(ks + xs) + Forest(t)
    ensures xs != [] ==> xs[0].depth <= t[0].depth
  {
    var d := t[0].depth;
    var x, y := Parted(xs, d);
    UniformCount(ks + xs);
    FrontPart(ks, xs, d);
    if ks != [] { NothingBetween(ks, t, x, y); }
  }

  lemma {:induction false} NothingBetween(ks: seq<Entry>, t: seq<Entry>, x: seq<Entry>, y: seq<Entry>)
    requires IsTwig(t) && AllAtLeast(ks, t[0].depth) && AllDeeper(x, t[0].depth) && (y != [] ==> y[0].depth <= t[0].depth)
    requires InColumn(Forest(ks + (x + y)), t[0].depth) && Forest(ks + (t + (x + y))) == Forest(ks + (x + y)) + Forest(t)
    ensures x == []
  {
    var d := t[0].depth;
    TwigInside(ks, t, x, y);
    TwigForest(t);
    LeavesFront(ks, x, y, d);
    var twig, below := [Node(d, t[0].text, Forest(t[1..]))], [Node(d, t[0].text, Forest(t[1..] + x))];
    SameFronts(Forest(ks), below + Forest(y), Forest(ks + x), Forest(y), twig, d);
    SwallowedNone(ks, x, d, Forest(ks + x) + Forest(y) + twig);
  }

  lemma {:induction false} SameFronts(a: seq<Node>, b: seq<Node>, a': seq<Node>, b': seq<Node>, c: seq<Node>, d: nat)
    requires a + b == (a' + b') + c && InColumn(a' + b', d) && InColumn(c, d)
    ensures a <= (a' + b') + c && a' <= (a' + b') + c && InColumn((a' + b') + c, d)
  {}

  lemma {:induction false} FrontPart(a: seq<Entry>, b: seq<Entry>, d: nat)
    requires AllAtLeast(a + b, d)
    ensures AllAtLeast(a, d) && AllAtLeast(b, d)
  {
    forall i | 0 <= i < |a| ensures a[i].depth >= d { assert (a + b)[i] == a[i]; }
    forall i | 0 <= i < |b| ensures b[i].depth >= d { assert (a + b)[|a| + i] == b[i]; }
  }

  lemma {:induction false} LeavesFront(ks: seq<Entry>, x: seq<Entry>, y: seq<Entry>, d: nat)
    requires AllAtLeast(ks, d) && AllDeeper(x, d) && (y != [] ==> y[0].depth <= d)
    ensures Forest(ks + (x + y)) == Forest(ks + x) + Forest(y)
  {
    assert ks + (x + y) == (ks + x) + y;
    assert AllAtLeast(ks + x, d);
    ForestConcat(ks + x, y);
  }

  lemma {:induction false} PrefixColumns(f: seq<Node>, g: seq<Node>, d: nat)
    requires f <= g && InColumn(g, d)
    ensures InColumn(f, d)
  {
    forall i | 0 <= i < |f| ensures f[i].column == d { assert f[i] == g[i]; }
  }

  /** Deeper entries at the end of a list add no roots, but do add to the last one. */
  lemma {:induction false} SwallowedNone(ks: seq<Entry>, x: seq<Entry>, d: nat, g: seq<Node>)
    requires AllAtLeast(ks, d) && AllDeeper(x, d) && InColumn(g, d)
    requires Forest(ks) <= g && Forest(ks + x) <= g
    ensures x == []
  {
    PrefixColumns(Forest(ks), g, d);
    PrefixColumns(Forest(ks + x), g, d);
    SwallowedCount(ks, x, d);
    assert Forest(ks) == g[..|Forest(ks)|] == Forest(ks + x);
    SizeForest(ks);
    SizeForest(ks + x);
  }

  lemma {:induction false} SwallowedCount(ks: seq<Entry>, x: seq<Entry>, d: nat)
    requires AllAtLeast(ks, d) && AllDeeper(x, d) && InColumn(Forest(ks), d) && InColumn(Forest(ks + x), d)
    ensures |Forest(ks)| == |Forest(ks + x)|
  {
    assert AllAtLeast(ks + x, d);
    ShallowestAreRoots(ks, d);
    ShallowestAreRoots(ks + x, d);
    UniformRootsAt(Forest(ks), d);
    UniformRootsAt(Forest(ks + x), d);
    EntriesAtConcat(ks, x, d);
    NoEntriesAt(x, d);
  }

  // ---------------------------------------------------------------- paths

  /** Index of the first root that reads `text`, or the number of roots. */
  function Find(f: seq<Node>, text: string): (i: nat)
    ensures i <= |f| && (forall k :: 0 <= k < i ==> f[k].text != text) && (i < |f| ==> f[i].text == text)
  {
    if f == [] || f[0].text == text then 0 else 1 + Find(f[1..], text)
  }

  function Kids(f: seq<Node>, text: string): seq<Node> {
    var i := Find(f, text);
    if i < |f| then f[i].children else []
  }

  function SetKids(f: seq<Node>, text: string, kids: seq<Node>): seq<Node> {
    var i := Find(f, text);
    if i < |f| then f[i := f[i].(children := kids)] else f
  }

  function Drop(f: seq<Node>, text: string): seq<Node> {
    var i := Find(f, text);
    if i < |f| then f[..i] + f[i + 1..] else f
  }

  /** The list at `top`/`key`, and the document without it. */
  function Items(f: seq<Node>, top: string, key: string): seq<Node> { Kids(Kids(f, top), key) }

  function Without(f: seq<Node>, top: string, key: string): seq<Node> { SetKids(f, top, Drop(Kids(f, top), key)) }

  /** `assert_only_addition` on two documents: the list grew by `added` at its end and nothing else changed. */
  predicate OnlyAddition(before: seq<Node>, after: seq<Node>, top: string, key: string, added: Node) {
    Items(after, top, key) == Items(before, top, key) + [added] && Without(before, top, key) == Without(after, top, key)
  }

  /** The same for the children of `top`. */
  predicate Grown(kids: seq<Node>, kids': seq<Node>, key: string, added: Node) {
    Kids(kids', key) == Kids(kids, key) + [added] && Drop(kids, key) == Drop(kids', key)
  }

  /** `holder`'s items appended to the child `holder` names, which is created at the end when it is missing. */
  function AddUnder(kids: seq<Node>, holder: Node): seq<Node> {
    var i := Find(kids, holder.text);
    if i < |kids| then kids[i := kids[i].(children := kids[i].children + holder.children)] else kids + [holder]
  }

  /** The document with `holder`'s items appended under `top`. */
  function AppendUnder(f: seq<Node>, top: string, holder: Node): seq<Node> {
    SetKids(f, top, AddUnder(Kids(f, top), holder))
  }

  ghost predicate NoRoot(f: seq<Node>, text: string) { forall i :: 0 <= i < |f| ==> f[i].text != text }

  lemma {:induction false} FindAround(a: seq<Node>, n: Node, b: seq<Node>)
    requires NoRoot(a, n.text)
    ensures Find(a + ([n] + b), n.text) == |a|
    ensures Kids(a + ([n] + b), n.text) == n.children
    ensures Drop(a + ([n] + b), n.text) == a + b
  {
    var f := a + ([n] + b);
    assert f[|a|] == n;
    forall k | 0 <= k < |a| ensures f[k].text != n.text { assert f[k] == a[k]; }
    assert Find(f, n.text) == |a|;
    assert f[..|a|] == a && f[|a| + 1..] == b;
  }

  lemma {:induction false} SetAround(a: seq<Node>, n: Node, b: seq<Node>, kids: seq<Node>)
    requires NoRoot(a, n.text)
    ensures SetKids(a + ([n] + b), n.text, kids) == a + ([n.(children := kids)] + b)
  {
    FindAround(a, n, b);
    UpdateAround(a, n, n.(children := kids), b);
  }

  lemma {:induction false} UpdateAround(a: seq<Node>, n: Node, n': Node, b: seq<Node>)
    ensures (a + ([n] + b))[|a|] == n && (a + ([n] + b))[|a| := n'] == a + ([n'] + b)
  {}

  lemma {:induction false} UniformAround(a: seq<Node>, n: Node, b: seq<Node>)
    requires Uniform(a + ([n] + b))
    ensures Uniform(a) && Uniform(n.children) && Uniform(b)
    ensures forall kids :: Uniform(kids) <==> Uniform(a + ([n.(children := kids)] + b))
  {
    var f := a + ([n] + b);
    forall i | 0 <= i < |a| ensures a[i].column == n.column && Uniform(a[i].children) { assert f[i] == a[i]; }
    assert f[|a|] == n;
    forall i | 0 <= i < |b| ensures b[i].column == n.column && Uniform(b[i].children) { assert f[|a| + 1 + i] == b[i]; }
    forall kids ensures Uniform(kids) <==> Uniform(a + ([n.(children := kids)] + b)) {
      var g := a + ([n.(children := kids)] + b);
      assert g[|a|].children == kids;
    }
  }

  /** The document with forest `kids` below its root `top`. */
  function Doc(a: seq<Node>, top: string, kids: seq<Node>, b: seq<Node>): seq<Node> { a + ([Node(0, top, kids)] + b) }

  /** A change below the root `top` is an addition to the list at `top`/`key`, and readable, exactly when
      it is so for `top`'s children. */
  lemma {:induction false} BelowTop(a: seq<Node>, top: string, kids: seq<Node>, kids': seq<Node>, b: seq<Node>, holder: Node, item: Node)
    requires NoRoot(a, top) && Uniform(Doc(a, top, kids, b))
    ensures Uniform(kids)
    ensures Uniform(Doc(a, top, kids', b)) <==> Uniform(kids')
    ensures OnlyAddition(Doc(a, top, kids, b), Doc(a, top, kids', b), top, holder.text, item) <==> Grown(kids, kids', holder.text, item)
    ensures AppendUnder(Doc(a, top, kids, b), top, holder) == Doc(a, top, AddUnder(kids, holder), b)
  {
    var n, n', key := Node(0, top, kids), Node(0, top, kids'), holder.text;
    UniformAround(a, n, b);
    FindAround(a, n, b);
    FindAround(a, n', b);
    SetAround(a, n, b, Drop(kids, key));
    SetAround(a, n', b, Drop(kids', key));
    SetAround(a, n, b, AddUnder(kids, holder));
    assert Doc(a, top, Drop(kids, key), b)[|a|].children == Drop(kids, key);
    assert Doc(a, top, Drop(kids', key), b)[|a|].children == Drop(kids', key);
  }

  /** The children of `top` with `list` below the key. */
  function Holding(c: seq<Node>, key: string, column: nat, list: seq<Node>, d: seq<Node>): seq<Node> {
    c + ([Node(column, key, list)] + d)
  }

  /** And for a change below the child `key` exactly when the item is appended. */
  lemma {:induction false} BelowKey(c: seq<Node>, key: string, column: nat, list: seq<Node>, list': seq<Node>, d: seq<Node>, items: seq<Node>, item: Node)
    requires NoRoot(c, key) && Uniform(Holding(c, key, column, list, d)) && items == [item]
    ensures Uniform(list)
    ensures Uniform(Holding(c, key, column, list', d)) <==> Uniform(list')
    ensures Grown(Holding(c, key, column, list, d), Holding(c, key, column, list', d), key, item) <==> list' == list + items
    ensures AddUnder(Holding(c, key, column, list, d), Node(column, key, items)) == Holding(c, key, column, list + items, d)
  {
    UniformAround(c, Node(column, key, list), d);
    FindAround(c, Node(column, key, list), d);
    FindAround(c, Node(column, key, list'), d);
  }

  // ---------------------------------------------------------------- the two insertions

  /** Main step for a key that is among `top`'s children: its list `ks + xs` gets a twig between its parts. */
  lemma {:induction false} AppendEntries(c: seq<Node>, key: string, column: nat, ks: seq<Entry>, t: seq<Entry>, xs: seq<Entry>, d: seq<Node>)
    requires NoRoot(c, key) && Uniform(Holding(c, key, column, Forest(ks + xs), d))
    requires IsTwig(t) && Uniform(Forest(t))
    ensures |Forest(t)| == 1
    ensures var kids, kids' := Holding(c, key, column, Forest(ks + xs), d), Holding(c, key, column, Forest(ks + (t + xs)), d);
            && (Uniform(kids') && Grown(kids, kids', key, Forest(t)[0]) <==> Lands(ks, t, xs))
            && (Lands(ks, t, xs) ==> kids' == AddUnder(kids, Node(column, key, Forest(t))))
  {
    TwigForest(t);
    BelowKey(c, key, column, Forest(ks + xs), Forest(ks + (t + xs)), d, Forest(t), Forest(t)[0]);
    InsertTwig(ks, t, xs);
    assert Extended(ks, t, xs) <==> Uniform(Forest(ks + (t + xs))) && Forest(ks + (t + xs)) == Forest(ks + xs) + Forest(t);
  }

  /** The children `ks + xs` get a new one named by `t` when `t` is put between their parts: they stand in
      `t`'s column, their second part starts there, and none has its name. */
  ghost predicate Opens(ks: seq<Entry>, t: seq<Entry>, xs: seq<Entry>)
    requires IsTwig(t)
  {
    && (ks + xs != [] ==> (ks + xs)[0].depth == t[0].depth)
    && (xs != [] ==> xs[0].depth <= t[0].depth)
    && NoRoot(Forest(ks + xs), t[0].text)
  }

  lemma {:induction false} SizeDrop(f: seq<Node>, text: string)
    ensures Size(f) == Size(Drop(f, text)) + Size(Kids(f, text)) + if Find(f, text) < |f| then 1 else 0
    ensures |f| == |Drop(f, text)| + if Find(f, text) < |f| then 1 else 0
  {
    var i := Find(f, text);
    if i < |f| {
      assert f == f[..i] + ([f[i]] + f[i + 1..]);
      SizeConcat(f[..i], [f[i]] + f[i + 1..]);
      SizeConcat(f[..i], f[i + 1..]);
      assert ([f[i]] + f[i + 1..])[1..] == f[i + 1..];
    }
  }

  /** A list can only have grown by a new holder's item if the key is new. */
  lemma {:induction false} KeyIsNew(es: seq<Entry>, es': seq<Entry>, t: seq<Entry>, item: Node)
    requires IsTwig(t) && Forest(t[1..]) == [item] && |es'| == |es| + |t|
    requires Grown(Forest(es), Forest(es'), t[0].text, item)
    ensures NoRoot(Forest(es), t[0].text) && |Forest(es')| == |Forest(es)| + 1 && Kids(Forest(es'), t[0].text) == [item]
  {
    var f, f', key := Forest(es), Forest(es'), t[0].text;
    SizeForest(es);
    SizeForest(es');
    SizeForest(t[1..]);
    SizeDrop(f, key);
    SizeDrop(f', key);
    SizeConcat(Kids(f, key), [item]);
  }

  /** The twig put between opens a new key with the item, and siblings stand in one column. */
  ghost predicate Opened(ks: seq<Entry>, t: seq<Entry>, xs: seq<Entry>, item: Node)
    requires IsTwig(t)
  {
    Uniform(Forest(ks + (t + xs))) && Grown(Forest(ks + xs), Forest(ks + (t + xs)), t[0].text, item)
  }

  /** Main step for a key that is missing: `t` is the new key with its one item. */
  lemma {:induction false} OpenEntries(ks: seq<Entry>, t: seq<Entry>, xs: seq<Entry>, item: Node)
    requires Uniform(Forest(ks + xs)) && IsTwig(t) && Uniform(Forest(t)) && Forest(t[1..]) == [item]
    requires ks + xs != [] && (ks + xs)[0].depth == t[0].depth ==> NoRoot(Forest(ks), t[0].text)
    ensures Opened(ks, t, xs, item) <==> Opens(ks, t, xs)
    ensures Opens(ks, t, xs) && xs == [] ==> Forest(ks + (t + xs)) == AddUnder(Forest(ks + xs), Node(t[0].depth, t[0].text, [item]))
  {
    if Opens(ks, t, xs) { OpensAdds(ks, t, xs, item); }
    if Opened(ks, t, xs, item) { OpensOnly(ks, t, xs, item); }
  }

  lemma {:induction false} OpensAdds(ks: seq<Entry>, t: seq<Entry>, xs: seq<Entry>, item: Node)
    requires IsTwig(t) && Uniform(Forest(ks + xs)) && Uniform(Forest(t)) && Forest(t[1..]) == [item] && Opens(ks, t, xs)
    ensures Opened(ks, t, xs, item)
    ensures xs == [] ==> Forest(ks + (t + xs)) == AddUnder(Forest(ks + xs), Node(t[0].depth, t[0].text, [item]))
  {
    TwigForest(t);
    TwigBetween(ks, t, xs);
    HolderBetween(Forest(ks), Node(t[0].depth, t[0].text, [item]), Forest(xs), item);
  }

  lemma {:induction false} HolderBetween(a: seq<Node>, holder: Node, b: seq<Node>, item: Node)
    requires NoRoot(a + b, holder.text) && holder.children == [item]
    ensures Grown(a + b, a + ([holder] + b), holder.text, item)
    ensures b == [] ==> a + ([holder] + b) == AddUnder(a + b, holder)
  {
    forall i | 0 <= i < |a| ensures a[i].text != holder.text { assert (a + b)[i] == a[i]; }
    FindAround(a, holder, b);
    assert Find(a + b, holder.text) == |a + b|;
  }

  lemma {:induction false} OpensOnly(ks: seq<Entry>, t: seq<Entry>, xs: seq<Entry>, item: Node)
    requires Uniform(Forest(ks + xs)) && IsTwig(t) && Forest(t[1..]) == [item] && Opened(ks, t, xs, item)
    requires ks + xs != [] && (ks + xs)[0].depth == t[0].depth ==> NoRoot(Forest(ks), t[0].text)
    ensures Opens(ks, t, xs)
  {
    KeyIsNew(ks + xs, ks + (t + xs), t, item);
    if ks + xs != [] {
      OpensInColumn(ks, t, xs);
      OpensBetween(ks, t, xs, item);
    }
  }

  lemma {:induction false} OpensInColumn(ks: seq<Entry>, t: seq<Entry>, xs: seq<Entry>)
    requires IsTwig(t) && ks + xs != [] && Uniform(Forest(ks + xs)) && Uniform(Forest(ks + (t + xs)))
    requires |Forest(ks + (t + xs))| == |Forest(ks + xs)| + 1
    ensures (ks + xs)[0].depth == t[0].depth
  {
    var m, m' := (ks + xs)[0].depth, (ks + (t + xs))[0].depth;
    UniformCount(ks + xs);
    UniformCount(ks + (t + xs));
    EntriesAtInsert(ks, t, xs, m');
    assert (ks + (t + xs))[|ks|] == t[0];
    TwigEntriesAt(t, m');
    if ks == [] {
      assert ks + xs == xs && (ks + (t + xs))[|t|] == xs[0];
      FirstRoot(xs);
      if m > m' { NoEntriesAt(xs, m'); }
    }
  }

  lemma {:induction false} OpensBetween(ks: seq<Entry>, t: seq<Entry>, xs: seq<Entry>, item: Node)
    requires IsTwig(t) && Forest(t[1..]) == [item] && ks + xs != [] && (ks + xs)[0].depth == t[0].depth && Uniform(Forest(ks + xs))
    requires NoRoot(Forest(ks), t[0].text) && Kids(Forest(ks + (t + xs)), t[0].text) == [item]
    ensures xs != [] ==> xs[0].depth <= t[0].depth
  {
    UniformCount(ks + xs);
    FrontPart(ks, xs, t[0].depth);
    var x, y := Parted(xs, t[0].depth);
    HeldBetween(ks, t, x, y);
    SizeForest(t[1..] + x);
    SizeForest(t[1..]);
  }

  lemma {:induction false} HeldBetween(ks: seq<Entry>, t: seq<Entry>, x: seq<Entry>, y: seq<Entry>)
    requires IsTwig(t) && AllAtLeast(ks, t[0].depth) && AllDeeper(x, t[0].depth) && (y != [] ==> y[0].depth <= t[0].depth)
    requires NoRoot(Forest(ks), t[0].text)
    ensures Kids(Forest(ks + (t + (x + y))), t[0].text) == Forest(t[1..] + x)
  {
    TwigInside(ks, t, x, y);
    FindAround(Forest(ks), Node(t[0].depth, t[0].text, Forest(t[1..] + x)), Forest(y));
  }

  // ---------------------------------------------------------------- a key that only looks like a child

  /** The entries around the last one in the first column. */
  lemma {:induction false} LastAt(es: seq<Entry>, d: nat) returns (a: seq<Entry>, e: Entry, b: seq<Entry>)
    requires es != [] && es[0].depth == d && AllAtLeast(es, d)
    ensures es == a + ([e] + b) && e.depth == d && AllAtLeast(a, d) && AllDeeper(b, d)
  {
    var n := |es| - 1;
    while es[n].depth > d
      invariant 0 <= n < |es| && AllDeeper(es[n + 1..], d)
      decreases n
    {
      assert es[n..] == [es[n]] + es[n + 1..];
      n := n - 1;
    }
    a, e, b := es[..n], es[n], es[n + 1..];
  }

  lemma {:induction false} Regroup<T>(a: seq<T>, e: seq<T>, f: seq<T>, s: seq<T>, b: seq<T>, c: seq<T>)
    ensures ((a + (e + f)) + s) + (b + c) == a + (e + (((f + s) + b) + c))
  {}

  /** A twig put deeper than an entry that itself is deeper than `top`'s children is no child of theirs. */
  lemma {:induction false} Buried(f: seq<Entry>, s: seq<Entry>, t: seq<Entry>, b: seq<Entry>, key: string, item: Node)
    requires f != [] && s != [] && f[0].depth < s[0].depth && AllAtLeast(s, s[0].depth) && AllDeeper(t, s[0].depth)
    requires Uniform(Forest((f + s) + b)) && Uniform(Forest((f + s) + (t + b)))
    ensures !Grown(Forest((f + s) + b), Forest((f + s) + (t + b)), key, item)
  {
    var d := f[0].depth;
    UniformCount((f + s) + b);
    FrontPart(f + s, b, d);
    FrontPart(f, s, d);
    var before, e, f' := LastAt(f, d);
    var b1, b2 := Parted(b, d);
    Regroup(before, [e], f', s, b1, b2);
    Regroup(before, [e], f', s, t + b1, b2);
    assert t + (b1 + b2) == (t + b1) + b2;
    BuriedIn(before, e, f', s, t, b1, b2, key, item);
  }

  lemma {:induction false} Regrouped<T>(f: seq<T>, k: seq<T>, ks: seq<T>, xs: seq<T>, b: seq<T>)
    ensures f + (k + ((ks + xs) + b)) == (f + (k + ks)) + (xs + b)
  {}

  /** So is one in the list `ks + xs` of a key `k` that stands deeper than `top`'s children. */
  lemma {:induction false} ChildBuried(f: seq<Entry>, k: Entry, ks: seq<Entry>, t: seq<Entry>, xs: seq<Entry>, b: seq<Entry>,
                                       key: string, item: Node)
    requires !AllAtLeast(f, k.depth) && AllDeeper(ks, k.depth) && AllDeeper(t, k.depth)
    requires Uniform(Forest(f + ([k] + ((ks + xs) + b)))) && Uniform(Forest(f + ([k] + ((ks + (t + xs)) + b))))
    ensures !Grown(Forest(f + ([k] + ((ks + xs) + b))), Forest(f + ([k] + ((ks + (t + xs)) + b))), key, item)
  {
    FirstIsShallowest(f, k, (ks + xs) + b);
    Regrouped(f, [k], ks, xs, b);
    Regrouped(f, [k], ks, t + xs, b);
    assert (t + xs) + b == t + (xs + b);
    Buried(f, [k] + ks, t, xs + b, key, item);
  }

  /** In a uniform forest nothing before an entry is shallower exactly when the first entry is not. */
  lemma {:induction false} FirstIsShallowest(f: seq<Entry>, k: Entry, z: seq<Entry>)
    requires Uniform(Forest(f + ([k] + z)))
    ensures (f + ([k] + z))[0].depth <= k.depth
    ensures AllAtLeast(f, k.depth) <==> (f + ([k] + z))[0].depth == k.depth
  {
    var es := f + ([k] + z);
    UniformCount(es);
    FrontPart(f, [k] + z, es[0].depth);
    assert es[|f|] == k;
  }

  lemma {:induction false} BuriedIn(before: seq<Entry>, e: Entry, f: seq<Entry>, s: seq<Entry>, t: seq<Entry>, b1: seq<Entry>, b2: seq<Entry>,
                                    key: string, item: Node)
    requires AllAtLeast(before, e.depth) && AllDeeper(f, e.depth) && AllDeeper(b1, e.depth) && (b2 != [] ==> b2[0].depth <= e.depth)
    requires s != [] && e.depth < s[0].depth && AllAtLeast(s, s[0].depth) && AllDeeper(t, s[0].depth)
    requires Uniform(Forest(before + ([e] + (((f + s) + b1) + b2)))) && Uniform(Forest(before + ([e] + (((f + s) + (t + b1)) + b2))))
    ensures !Grown(Forest(before + ([e] + (((f + s) + b1) + b2))), Forest(before + ([e] + (((f + s) + (t + b1)) + b2))), key, item)
  {
    var d := e.depth;
    assert AllDeeper((f + s) + b1, d) && AllDeeper((f + s) + (t + b1), d);
    ForestAround(before, e, (f + s) + b1, b2);
    ForestAround(before, e, (f + s) + (t + b1), b2);
    UniformAround(Forest(before), Node(d, e.text, Forest((f + s) + b1)), Forest(b2));
    UniformAround(Forest(before), Node(d, e.text, Forest((f + s) + (t + b1))), Forest(b2));
    SameCount(f, s, t, b1);
    DeepChange(Forest(before), d, e.text, Forest((f + s) + b1), Forest((f + s) + (t + b1)), Forest(b2), key, item);
  }

  lemma {:induction false} SameCount(f: seq<Entry>, s: seq<Entry>, t: seq<Entry>, b: seq<Entry>)
    requires s != [] && AllDeeper(t, s[0].depth)
    requires Uniform(Forest((f + s) + b)) && Uniform(Forest((f + s) + (t + b)))
    ensures |Forest((f + s) + b)| == |Forest((f + s) + (t + b))|
  {
    var es, es' := (f + s) + b, (f + s) + (t + b);
    UniformCount(es);
    UniformCount(es');
    assert es[|f|] == s[0];
    EntriesAtInsert(f + s, t, b, es[0].depth);
    NoEntriesAt(t, es[0].depth);
  }

  /** A change inside one child that leaves the number of its children alone appends nothing. */
  lemma {:induction false} DeepChange(a: seq<Node>, d: nat, text: string, kids: seq<Node>, kids': seq<Node>, b: seq<Node>, key: string, item: Node)
    requires |kids| == |kids'|
    ensures !Grown(Holding(a, text, d, kids, b), Holding(a, text, d, kids', b), key, item)
  {
    var f, f' := Holding(a, text, d, kids, b), Holding(a, text, d, kids', b);
    assert |f| == |f'| && forall i :: 0 <= i < |f| ==> f[i].text == f'[i].text;
    SameFind(f, f', key);
    assert forall i :: 0 <= i < |f| ==> |f[i].children| == |f'[i].children|;
  }

  lemma {:induction false} SameFind(f: seq<Node>, f': seq<Node>, text: string)
    requires |f| == |f'| && forall i :: 0 <= i < |f| ==> f[i].text == f'[i].text
    ensures Find(f, text) == Find(f', text)
  {
    var i, j := Find(f, text), Find(f', text);
    assert i < |f| ==> f'[i].text == text;
    assert j < |f| ==> f[j].text == text;
  }
}
