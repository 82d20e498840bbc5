/** Rows that make two assets of one id, and exactly which sets of row names rule them out. */
module AssetCollision {
  import opened Ordering
  import opened Texts
  import opened Models
  import opened AssetGraph
  import opened AssetPartition
  import opened AssetGrowth
  import opened Identifiers
  import opened AssetIdentity

  // ---- rows that collide ----------------------------------------------------------------------------

  function RowOf(n: Name, host: Option<string>, provider: string, account: string, resource: Option<string>): Observation {
    Observation(n.0, n.1, "server", host, [], Some(provider), Some(account), resource, map[])
  }

  function CloudKey(provider: string, account: string, resource: string): string {
    "cloud:" + Lower(provider) + ":" + account + ":" + resource
  }

  function HostKeyOf(host: string): string {
    "fqdn:" + host
  }

  lemma FirstCharsSorted(r: seq<string>)
    requires forall i :: 0 <= i < |r| ==> r[i] != ""
    requires forall i, j :: 0 <= i < j < |r| ==> r[i][0] < r[j][0]
    ensures StrictlySorted(r)
  {
    forall i, j | 0 <= i < j < |r| ensures StrLe(r[i], r[j]) && r[i] != r[j] {
      FirstCharLe(r[i], r[j]);
    }
  }

  lemma FirstCharsTuple(r: seq<string>, s: set<string>)
    requires forall i :: 0 <= i < |r| ==> r[i] != ""
    requires forall i, j :: 0 <= i < j < |r| ==> r[i][0] < r[j][0]
    requires forall k :: k in r <==> k in s
    ensures SortedSet(s) == r
  {
    FirstCharsSorted(r);
    SortedSetUnique(r, s);
  }

  lemma CloudRowTuple(n: Name, provider: string, account: string, resource: string)
    requires provider != "" && account != "" && resource != ""
    ensures var o := RowOf(n, None, provider, account, Some(resource));
            SortedSet(KeySet(o)) == [CloudKey(provider, account, resource), NameKey(n)]
  {
    hide Lower, SortedSet, StrLe;
    var o := RowOf(n, None, provider, account, Some(resource));
    var r := [CloudKey(provider, account, resource), NameKey(n)];
    assert r[0][0] == 'c' && r[1][0] == 's';
    FirstCharsTuple(r, KeySet(o));
  }

  lemma HostRowTuple(n: Name, host: string, provider: string, account: string)
    requires '.' in host
    ensures SortedSet(KeySet(RowOf(n, Some(host), provider, account, None))) == [HostKeyOf(host), NameKey(n)]
  {
    hide Lower, SortedSet, StrLe;
    var r := [HostKeyOf(host), NameKey(n)];
    assert r[0][0] == 'f' && r[1][0] == 's';
    FirstCharsTuple(r, KeySet(RowOf(n, Some(host), provider, account, None)));
  }

  lemma FullRowTuple(n: Name, host: string, provider: string, account: string, resource: string)
    requires provider != "" && account != "" && resource != "" && '.' in host
    ensures var o := RowOf(n, Some(host), provider, account, Some(resource));
            SortedSet(KeySet(o)) == [CloudKey(provider, account, resource), HostKeyOf(host), NameKey(n)]
  {
    hide Lower, SortedSet, StrLe;
    var o := RowOf(n, Some(host), provider, account, Some(resource));
    var r := [CloudKey(provider, account, resource), HostKeyOf(host), NameKey(n)];
    assert r[0][0] == 'c' && r[1][0] == 'f' && r[2][0] == 's';
    FirstCharsTuple(r, KeySet(o));
  }

  lemma CloudKeyGrows(provider: string, account: string, resource: string, more: string)
    ensures CloudKey(provider, account, resource + "\n" + more) == CloudKey(provider, account, resource) + "\n" + more
  {
    hide Lower;
  }

  lemma HostKeyGrows(host: string, more: string)
    ensures HostKeyOf(host + "\n" + more) == HostKeyOf(host) + "\n" + more
  {
  }

  /** Rows of two distinct assets that have one asset id. */
  ghost predicate Collide(digest: string -> string, x: Observation, y: Observation) {
    var assets := Correlate([x, y], AssetIds(digest));
    DistinctRows([x, y]) && exists p, q :: p in assets && q in assets && p != q && p.assetId == q.assetId
  }

  lemma TwoAssets(x: Observation, y: Observation, assetId: seq<string> -> string)
    requires DistinctRows([x, y]) && !Share(x, y)
    ensures Consolidate([x], assetId) in Correlate([x, y], assetId) && Consolidate([y], assetId) in Correlate([x, y], assetId)
  {
    ShareSymmetric(x, y);
    hide *;
    var items := [x, y];
    assert items[0] == x && items[1] == y;
    assert x in items && y in items;
    UnsharedKeysStayApart(items, assetId);
  }

  lemma ShareSymmetric(a: Observation, b: Observation)
    ensures Share(a, b) <==> Share(b, a)
  {
    assert KeySet(a) * KeySet(b) == KeySet(b) * KeySet(a);
  }

  /** Rows without a common key whose key tuples join to one text make two assets of one id. */
  lemma EqualTextsCollide(digest: string -> string, x: Observation, y: Observation)
    requires DistinctRows([x, y]) && !Share(x, y)
    requires SortedSet(KeySet(x)) != SortedSet(KeySet(y))
    requires JoinLines(SortedSet(KeySet(x))) == JoinLines(SortedSet(KeySet(y)))
    ensures Collide(digest, x, y)
  {
    hide Correlate, Share, KeySet, SortedSet, JoinLines, DistinctRows, Consolidate;
    TwoAssets(x, y, AssetIds(digest));
    SoloKeys(x, AssetIds(digest));
    SoloKeys(y, AssetIds(digest));
    SameJoinSameId(digest, SortedSet(KeySet(x)), SortedSet(KeySet(y)));
    var p, q := Consolidate([x], AssetIds(digest)), Consolidate([y], AssetIds(digest));
    assert p != q && p.assetId == q.assetId;
  }

  lemma SameJoinSameId(digest: string -> string, p: seq<string>, q: seq<string>)
    requires JoinLines(p) == JoinLines(q)
    ensures AssetIds(digest)(p) == AssetIds(digest)(q)
  {
    hide JoinLines;
  }

  ghost predicate Apart(p: seq<string>, q: seq<string>) {
    forall k :: !(k in p && k in q)
  }

  lemma ApartNotShared(x: Observation, y: Observation)
    requires Apart(SortedSet(KeySet(x)), SortedSet(KeySet(y)))
    ensures !Share(x, y)
  {
    hide KeySet;
    forall k ensures k !in KeySet(x) * KeySet(y) {
      assert k in SortedSet(KeySet(x)) <==> k in KeySet(x);
      assert k in SortedSet(KeySet(y)) <==> k in KeySet(y);
    }
  }

  /** Rows of nested names collide once the keys before the source keys join to texts that differ by
      the head. */
  lemma NestedTuplesCollide(digest: string -> string, x: Observation, y: Observation, p: seq<string>, q: seq<string>)
    requires Nests(RowName(x), RowName(y)) && p != [] && q != []
    requires SortedSet(KeySet(x)) == p + [SourceKey(x)] && SortedSet(KeySet(y)) == q + [SourceKey(y)]
    requires JoinLines(q) == JoinLines(p) + "\n" + Head(RowName(x), RowName(y))
    requires Apart(p + [SourceKey(x)], q + [SourceKey(y)])
    ensures Collide(digest, x, y)
  {
    ApartNotShared(x, y);
    NestedNamesDiffer(x, y);
    var m, n := RowName(x), RowName(y);
    HeadJoins(m, n);
    assert SourceKey(x) == NameKey(m) && SourceKey(y) == NameKey(n);
    hide *;
    JoinLinesAppend(p, [NameKey(m)]);
    JoinLinesAppend(q, [NameKey(n)]);
    JoinLinesOne(NameKey(m));
    JoinLinesOne(NameKey(n));
    RegroupLines(JoinLines(p), Head(m, n), NameKey(n));
    ApartDiffer(p + [SourceKey(x)], q + [SourceKey(y)]);
    EqualTextsCollide(digest, x, y);
  }

  lemma RegroupLines(a: string, b: string, c: string)
    ensures a + "\n" + (b + "\n" + c) == a + "\n" + b + "\n" + c
  {
  }

  lemma ApartDiffer(p: seq<string>, q: seq<string>)
    requires Apart(p, q) && p != []
    ensures p != q
  {
    assert p[0] in p;
  }

  lemma NestedNamesDiffer(x: Observation, y: Observation)
    requires Nests(RowName(x), RowName(y))
    ensures DistinctRows([x, y])
  {
  }

  lemma RowFacts(n: Name, host: Option<string>, provider: string, account: string, resource: Option<string>)
    ensures var o := RowOf(n, host, provider, account, resource); RowName(o) == n && SourceKey(o) == NameKey(n)
  {
  }

  lemma KeyStarts(provider: string, account: string, resource: string, host: string)
    ensures CloudKey(provider, account, resource) != "" && CloudKey(provider, account, resource)[0] == 'c'
    ensures HostKeyOf(host) != "" && HostKeyOf(host)[0] == 'f'
  {
  }

  lemma LineAdded(k: string, h: string)
    ensures |k + "\n" + h| > |k| && (k != "" ==> (k + "\n" + h)[0] == k[0])
  {
  }

  // ---- three ways to stand before nested source keys --------------------------------------------------

  lemma NestedLonger(m: Name, n: Name)
    requires Nests(m, n)
    ensures |NameKey(m)| > |NameKey(n)| && NameKey(m)[0] == 's' && NameKey(n)[0] == 's'
  {
    assert "source:"[0] == 's';
  }

  /** One row continues the other's cloud resource id by the head. */
  lemma CloudRowsCollide(digest: string -> string, m: Name, n: Name, provider: string, account: string, resource: string)
    requires Nests(m, n) && provider != "" && account != "" && resource != ""
    ensures Collide(digest, RowOf(m, None, provider, account, Some(resource)),
                    RowOf(n, None, provider, account, Some(resource + "\n" + Head(m, n))))
  {
    hide *;
    var c, h := CloudKey(provider, account, resource), Head(m, n);
    var x, y := RowOf(m, None, provider, account, Some(resource)), RowOf(n, None, provider, account, Some(resource + "\n" + h));
    RowFacts(m, None, provider, account, Some(resource));
    RowFacts(n, None, provider, account, Some(resource + "\n" + h));
    KeyStarts(provider, account, resource, "");
    LineAdded(c, h);
    LineAdded(resource, h);
    CloudRowTuple(m, provider, account, resource);
    CloudRowTuple(n, provider, account, resource + "\n" + h);
    CloudKeyGrows(provider, account, resource, h);
    NestedLonger(m, n);
    var p, q := [c], [c + "\n" + h];
    assert p + [NameKey(m)] == [c, NameKey(m)] && q + [NameKey(n)] == [c + "\n" + h, NameKey(n)];
    PairsApart(c, NameKey(m), c + "\n" + h, NameKey(n));
    JoinLinesOne(c);
    JoinLinesOne(c + "\n" + h);
    NestedTuplesCollide(digest, x, y, p, q);
  }

  lemma PairsApart(a: string, b: string, c: string, d: string)
    requires a != c && a != d && b != c && b != d
    ensures Apart([a, b], [c, d])
  {
  }

  /** One row continues the other's hostname by the head. */
  lemma HostRowsCollide(digest: string -> string, m: Name, n: Name, host: string, provider: string, account: string)
    requires Nests(m, n) && '.' in host
    ensures Collide(digest, RowOf(m, Some(host), provider, account, None),
                    RowOf(n, Some(host + "\n" + Head(m, n)), provider, account, None))
  {
    hide *;
    var f, h := HostKeyOf(host), Head(m, n);
    var x, y := RowOf(m, Some(host), provider, account, None), RowOf(n, Some(host + "\n" + h), provider, account, None);
    RowFacts(m, Some(host), provider, account, None);
    RowFacts(n, Some(host + "\n" + h), provider, account, None);
    KeyStarts(provider, account, "", host);
    LineAdded(f, h);
    DotAppended(host, "\n" + h);
    LineText(host, h);
    HostRowTuple(m, host, provider, account);
    HostRowTuple(n, host + "\n" + h, provider, account);
    HostKeyGrows(host, h);
    NestedLonger(m, n);
    var p, q := [f], [f + "\n" + h];
    assert p + [NameKey(m)] == [f, NameKey(m)] && q + [NameKey(n)] == [f + "\n" + h, NameKey(n)];
    PairsApart(f, NameKey(m), f + "\n" + h, NameKey(n));
    JoinLinesOne(f);
    JoinLinesOne(f + "\n" + h);
    NestedTuplesCollide(digest, x, y, p, q);
  }

  /** One row continues the other's cloud resource id by the first part of the head and has the rest
      as its hostname. */
  lemma CloudHostRowsCollide(digest: string -> string, m: Name, n: Name, first: string, host: string,
                             provider: string, account: string, resource: string)
    requires Nests(m, n) && Head(m, n) == first + "\n" + HostKeyOf(host) && '.' in host
    requires provider != "" && account != "" && resource != ""
    ensures Collide(digest, RowOf(m, None, provider, account, Some(resource)),
                    RowOf(n, Some(host), provider, account, Some(resource + "\n" + first)))
  {
    hide *;
    var c, f := CloudKey(provider, account, resource), HostKeyOf(host);
    var x, y := RowOf(m, None, provider, account, Some(resource)), RowOf(n, Some(host), provider, account, Some(resource + "\n" + first));
    RowFacts(m, None, provider, account, Some(resource));
    RowFacts(n, Some(host), provider, account, Some(resource + "\n" + first));
    KeyStarts(provider, account, resource, host);
    LineAdded(c, first);
    LineAdded(resource, first);
    CloudRowTuple(m, provider, account, resource);
    FullRowTuple(n, host, provider, account, resource + "\n" + first);
    CloudKeyGrows(provider, account, resource, first);
    NestedLonger(m, n);
    var d := c + "\n" + first;
    var p, q := [c], [d, f];
    assert p + [NameKey(m)] == [c, NameKey(m)] && q + [NameKey(n)] == [d, f, NameKey(n)];
    PairTripleApart(c, NameKey(m), d, f, NameKey(n));
    JoinLinesOne(c);
    JoinTwo(d, f);
    RegroupLines(c, first, f);
    NestedTuplesCollide(digest, x, y, p, q);
  }

  lemma JoinTwo(a: string, b: string)
    ensures JoinLines([a, b]) == a + "\n" + b
  {
    assert [a, b][1..] == [b];
  }

  lemma PairTripleApart(a: string, b: string, c: string, d: string, e: string)
    requires a != c && a != d && a != e && b != c && b != d && b != e
    ensures Apart([a, b], [c, d, e])
  {
  }

  /** One row has the hostname with the head as a line of its own, and the other has the hostname in
      its cloud resource id. */
  lemma SplitHostRowsCollide(digest: string -> string, m: Name, n: Name, host: string,
                             provider: string, account: string, resource: string)
    requires Nests(m, n) && '.' in host + "\n" + Head(m, n) && provider != "" && account != "" && resource != ""
    ensures Collide(digest, RowOf(m, None, provider, account, Some(resource + "\n" + HostKeyOf(host))),
                    RowOf(n, Some(host + "\n" + Head(m, n)), provider, account, Some(resource)))
  {
    hide *;
    var c, f, h := CloudKey(provider, account, resource), HostKeyOf(host), Head(m, n);
    var x, y := RowOf(m, None, provider, account, Some(resource + "\n" + f)), RowOf(n, Some(host + "\n" + h), provider, account, Some(resource));
    RowFacts(m, None, provider, account, Some(resource + "\n" + f));
    RowFacts(n, Some(host + "\n" + h), provider, account, Some(resource));
    KeyStarts(provider, account, resource, host);
    LineAdded(c, f);
    LineAdded(f, h);
    LineAdded(resource, f);
    CloudRowTuple(m, provider, account, resource + "\n" + f);
    FullRowTuple(n, host + "\n" + h, provider, account, resource);
    CloudKeyGrows(provider, account, resource, f);
    HostKeyGrows(host, h);
    NestedLonger(m, n);
    var d, g := c + "\n" + f, f + "\n" + h;
    var p, q := [d], [c, g];
    assert p + [NameKey(m)] == [d, NameKey(m)] && q + [NameKey(n)] == [c, g, NameKey(n)];
    PairTripleApart(d, NameKey(m), c, g, NameKey(n));
    JoinLinesOne(d);
    JoinTwo(c, g);
    RegroupLines(c, f, h);
    NestedTuplesCollide(digest, x, y, p, q);
  }

  // ---- exactly which names are safe -------------------------------------------------------------------

  lemma SampleTexts()
    ensures SourceText("server") && RequiredText("p") && RequiredText("a") && RequiredText("r")
    ensures HostText("x.y") && '.' in "x.y"
  {
    LowerMeans("server");
    HostTextMeans("x.y");
    HostLikeMeans("x.y");
    hide Lower;
    assert "x.y"[1] == '.';
  }

  lemma RowAccepted(n: Name, host: Option<string>, provider: string, account: string, resource: Option<string>)
    requires ValidName(n) && RequiredText(provider) && RequiredText(account)
    requires (host.Some? ==> HostText(host.value)) && OptionalText(resource)
    ensures WellFormed(RowOf(n, host, provider, account, resource))
    ensures provider != "" && account != "" && (resource.Some? ==> resource.value != "")
  {
    SampleTexts();
    hide SourceText, Stripped, HostText;
  }

  lemma LineEndsText(t: string, h: string)
    requires RequiredText(t) && h != "" && !IsSpace(h[|h| - 1])
    ensures RequiredText(t + "\n" + h)
  {
    LineEnds(t, h);
    hide IsSpace;
  }

  lemma HeadInHost(h: string)
    requires h != "" && HostLike(h) && IsSpace(h[|h| - 1])
    ensures HostText("x.y" + "\n" + h)
  {
    HostTextMeans("x.y" + "\n" + h);
    HostTextMeans("x.y");
    SampleTexts();
    LineEndHostLike();
    hide HostLike, HostText;
    HostLikeParts("x.y", "\n");
    HostLikeParts("x.y" + "\n", h);
    LineEnds("x.y", h);
  }

  lemma PlainHeadRows(digest: string -> string, m: Name, n: Name) returns (x: Observation, y: Observation)
    requires ValidName(m) && ValidName(n) && Nests(m, n) && !IsSpace(Head(m, n)[|Head(m, n)| - 1]) && Head(m, n) != ""
    ensures WellFormed(x) && WellFormed(y) && RowName(x) == m && RowName(y) == n && Collide(digest, x, y)
  {
    var h := Head(m, n);
    SampleTexts();
    LineEndsText("r", h);
    hide Nests, Head, RequiredText, ValidName, SourceText, Collide, WellFormed, IsSpace;
    x, y := RowOf(m, None, "p", "a", Some("r")), RowOf(n, None, "p", "a", Some("r" + "\n" + h));
    RowAccepted(m, None, "p", "a", Some("r"));
    RowAccepted(n, None, "p", "a", Some("r" + "\n" + h));
    CloudRowsCollide(digest, m, n, "p", "a", "r");
  }

  lemma HostHeadRows(digest: string -> string, m: Name, n: Name) returns (x: Observation, y: Observation)
    requires ValidName(m) && ValidName(n) && Nests(m, n) && Head(m, n) != ""
    requires HostLike(Head(m, n)) && IsSpace(Head(m, n)[|Head(m, n)| - 1])
    ensures WellFormed(x) && WellFormed(y) && RowName(x) == m && RowName(y) == n && Collide(digest, x, y)
  {
    var h := Head(m, n);
    SampleTexts();
    HeadInHost(h);
    hide Nests, Head, RequiredText, ValidName, SourceText, Collide, WellFormed, IsSpace, HostLike, HostText;
    x, y := RowOf(m, Some("x.y"), "p", "a", None), RowOf(n, Some("x.y" + "\n" + h), "p", "a", None);
    RowAccepted(m, Some("x.y"), "p", "a", None);
    RowAccepted(n, Some("x.y" + "\n" + h), "p", "a", None);
    HostRowsCollide(digest, m, n, "x.y", "p", "a");
  }

  /** The part of `h` before the line that starts at `j`. */
  function LinesBefore(h: string, j: nat): string
    requires 2 <= j < |h|
  {
    h[..j - 1]
  }

  lemma TailSplit(h: string, j: nat)
    requires 2 <= j < |h| && h[j - 1] == '\n'
    ensures h == LinesBefore(h, j) + "\n" + h[j..]
    ensures LinesBefore(h, j) != "" && LinesBefore(h, j)[|LinesBefore(h, j)| - 1] == h[j - 2]
  {
  }

  lemma HostTailParts(h: string, j: nat) returns (first: string, host: string)
    requires HostTail(h, j)
    ensures h == first + "\n" + HostKeyOf(host) && HostText(host) && '.' in host
    ensures first != "" && !IsSpace(first[|first| - 1])
  {
    TailSplit(h, j);
    first := LinesBefore(h, j);
    host := HostOf(h[j..]);
    assert HostKeyOf(host) == "fqdn:" + host;
    hide LinesBefore, IsSpace, HostText, HostKeyOf, HostKey;
  }

  lemma HostTailRows(digest: string -> string, m: Name, n: Name, j: nat) returns (x: Observation, y: Observation)
    requires ValidName(m) && ValidName(n) && Nests(m, n) && HostTail(Head(m, n), j)
    ensures WellFormed(x) && WellFormed(y) && RowName(x) == m && RowName(y) == n && Collide(digest, x, y)
  {
    hide *;
    var first, host := HostTailParts(Head(m, n), j);
    SampleTexts();
    LineEndsText("r", first);
    x, y := RowOf(m, None, "p", "a", Some("r")), RowOf(n, Some(host), "p", "a", Some("r" + "\n" + first));
    NoneAccepted();
    SomeAccepted("r");
    SomeAccepted("r" + "\n" + first);
    RowAccepted(m, None, "p", "a", Some("r"));
    RowAccepted(n, Some(host), "p", "a", Some("r" + "\n" + first));
    RowFacts(m, None, "p", "a", Some("r"));
    RowFacts(n, Some(host), "p", "a", Some("r" + "\n" + first));
    CloudHostRowsCollide(digest, m, n, first, host, "p", "a", "r");
  }

  lemma SomeAccepted(text: string)
    requires RequiredText(text)
    ensures OptionalText(Some(text))
  {
  }

  lemma NoneAccepted()
    ensures OptionalText(None)
  {
  }

  /** Nested names whose head can end keys have rows that validation accepts and that collide. */
  lemma NestedNamesCollide(digest: string -> string, m: Name, n: Name) returns (x: Observation, y: Observation)
    requires ValidName(m) && ValidName(n) && Nests(m, n) && CanEndKey(Head(m, n))
    ensures WellFormed(x) && WellFormed(y) && RowName(x) == m && RowName(y) == n && Collide(digest, x, y)
  {
    hide ValidName, Nests, Head, Collide, WellFormed, IsSpace, HostLike, HostTail;
    var h := Head(m, n);
    if !IsSpace(h[|h| - 1]) {
      x, y := PlainHeadRows(digest, m, n);
    } else if HostLike(h) {
      x, y := HostHeadRows(digest, m, n);
    } else {
      var j: nat :| j < |h| && HostTail(h, j);
      x, y := HostTailRows(digest, m, n, j);
    }
  }

  /** A batch of validated rows with names in `N`. */
  ghost predicate BatchOf(items: seq<Observation>, N: iset<Name>) {
    Validated(items) && forall o :: o in items ==> RowName(o) in N
  }

  /** No name in `N` nests another after a text that can end keys. */
  ghost predicate SafeNames(N: iset<Name>) {
    forall m, n :: m in N && n in N && Nests(m, n) ==> !CanEndKey(Head(m, n))
  }

  ghost predicate IdsApart(digest: string -> string, N: iset<Name>) {
    forall items :: BatchOf(items, N) ==> DistinctAssetIds(Correlate(items, AssetIds(digest)))
  }

  lemma NestedRowsUnsafe(digest: string -> string, items: seq<Observation>, N: iset<Name>, x: Asset, y: Asset,
                         o: Observation, p: Observation)
    requires BatchOf(items, N) && NestedRows(x, y, o, p)
    requires x in Correlate(items, AssetIds(digest)) && y in Correlate(items, AssetIds(digest))
    ensures !SafeNames(N)
  {
    AssetTuple(items, AssetIds(digest), x);
    AssetTuple(items, AssetIds(digest), y);
    hide Correlate, TupleOf, WellFormed, JoinLines, Ends, Nests, Head, CanEndKey;
    var h := Head(RowName(o), RowName(p));
    HeadShape(RowName(o), RowName(p));
    assert Validated(y.observations);
    TupleEnds(y.correlationKeys, y.observations, h);
  }

  lemma CollisionTied(digest: string -> string, x: Observation, y: Observation)
    requires Collide(digest, x, y)
    ensures !DistinctAssetIds(Correlate([x, y], AssetIds(digest)))
  {
    hide Correlate, DistinctRows;
  }

  lemma PairBatch(x: Observation, y: Observation, N: iset<Name>)
    requires WellFormed(x) && WellFormed(y) && RowName(x) in N && RowName(y) in N
    ensures BatchOf([x, y], N)
  {
    hide WellFormed;
  }

  /** Exactly the sets of row names whose batches always have distinct asset ids, whatever their
      other fields: those in which no name nests another after a text that can end keys. */
  lemma NamesKeepIdsApart(digest: string -> string, N: iset<Name>)
    requires InjectiveDigest(digest) && forall n :: n in N ==> ValidName(n)
    ensures IdsApart(digest, N) <==> SafeNames(N)
  {
    hide ValidName, Nests, Head, CanEndKey, Correlate, BatchOf, Validated, NestedRows, Collide, WellFormed, InjectiveDigest, DistinctRows;
    if SafeNames(N) {
      forall items | BatchOf(items, N) ensures DistinctAssetIds(Correlate(items, AssetIds(digest))) {
        SafeBatch(digest, items, N);
      }
    } else {
      var m, n :| m in N && n in N && Nests(m, n) && CanEndKey(Head(m, n));
      var x, y := NestedNamesCollide(digest, m, n);
      CollisionTied(digest, x, y);
      PairBatch(x, y, N);
    }
  }

  lemma SafeBatch(digest: string -> string, items: seq<Observation>, N: iset<Name>)
    requires InjectiveDigest(digest) && BatchOf(items, N) && SafeNames(N)
    ensures DistinctAssetIds(Correlate(items, AssetIds(digest)))
  {
    hide *;
    var A := Correlate(items, AssetIds(digest));
    forall x, y | x in A && y in A && x.assetId == y.assetId ensures x == y {
      if x != y {
        EqualIdsNest(digest, items, x, y);
        if o, p :| NestedRows(x, y, o, p) { NestedRowsUnsafe(digest, items, N, x, y, o, p); }
        if o, p :| NestedRows(y, x, o, p) { NestedRowsUnsafe(digest, items, N, y, x, o, p); }
      }
    }
    DistinctMeans(A);
  }

  // ---- every place such a line can stand ---------------------------------------------------------------

  /** The name of the row that has source `l.0` and the source key of `n` below the record id `l.1`. */
  function Above(l: Name, n: Name): Name {
    (l.0, l.1 + "\n" + NameKey(n))
  }

  lemma AboveNests(l: Name, n: Name)
    ensures Nests(Above(l, n), n) && Head(Above(l, n), n) == NameKey(l)
  {
    var a := NameKey(Above(l, n));
    assert a == NameKey(l) + "\n" + NameKey(n);
    assert a[|NameKey(l)|] == '\n';
  }

  lemma AboveValid(l: Name, n: Name)
    requires ValidName(l) && ValidName(n)
    ensures ValidName(Above(l, n))
  {
    NameKeyEnds(n);
    LineEndsText(l.1, NameKey(n));
  }

  lemma NameKeyEnds(n: Name)
    requires RequiredText(n.1)
    ensures NameKey(n) != "" && !IsSpace(NameKey(n)[|NameKey(n)| - 1])
  {
    assert NameKey(n)[|NameKey(n)| - 1] == n.1[|n.1| - 1];
  }

  /** A later line of a record id, or of a cloud resource id, that reads as a source key makes two
      assets of one id beside a suitable other row: the first row has the line `n` in its record id,
      the second the line `l` in its resource id. */
  lemma RecordOrCloudLineCollides(digest: string -> string, l: Name, n: Name, provider: string, account: string, resource: string)
    requires provider != "" && account != "" && resource != ""
    ensures var x := RowOf((l.0, l.1 + "\n" + NameKey(n)), None, provider, account, Some(resource));
            var y := RowOf(n, None, provider, account, Some(resource + "\n" + NameKey(l)));
            && Collide(digest, x, y)
            && (ValidName(l) && ValidName(n) && RequiredText(provider) && RequiredText(account) && RequiredText(resource) ==>
                  WellFormed(x) && WellFormed(y))
  {
    AboveNests(l, n);
    assert Above(l, n) == (l.0, l.1 + "\n" + NameKey(n));
    if ValidName(l) && ValidName(n) && RequiredText(provider) && RequiredText(account) && RequiredText(resource) {
      AboveValid(l, n);
      NameKeyEnds(l);
      LineEndsText(resource, NameKey(l));
      hide *;
      RowAccepted(Above(l, n), None, provider, account, Some(resource));
      RowAccepted(n, None, provider, account, Some(resource + "\n" + NameKey(l)));
    }
    hide *;
    CloudRowsCollide(digest, Above(l, n), n, provider, account, resource);
  }

  /** The same for a later line of a hostname that has no white space before it. */
  lemma HostnameLineCollides(digest: string -> string, l: Name, n: Name, host: string, provider: string, account: string, resource: string)
    requires provider != "" && account != "" && resource != "" && '.' in host + "\n" + NameKey(l)
    ensures var x := RowOf((l.0, l.1 + "\n" + NameKey(n)), None, provider, account, Some(resource + "\n" + ("fqdn:" + host)));
            var y := RowOf(n, Some(host + "\n" + NameKey(l)), provider, account, Some(resource));
            && Collide(digest, x, y)
            && (ValidName(l) && ValidName(n) && RequiredText(provider) && RequiredText(account) && RequiredText(resource)
                && host != "" && !IsSpace(host[|host| - 1]) && HostText(host + "\n" + NameKey(l)) ==>
                  WellFormed(x) && WellFormed(y))
  {
    AboveNests(l, n);
    assert Above(l, n) == (l.0, l.1 + "\n" + NameKey(n)) && HostKeyOf(host) == "fqdn:" + host;
    if ValidName(l) && ValidName(n) && RequiredText(provider) && RequiredText(account) && RequiredText(resource)
       && host != "" && !IsSpace(host[|host| - 1]) && HostText(host + "\n" + NameKey(l)) {
      AboveValid(l, n);
      assert HostKeyOf(host)[|HostKeyOf(host)| - 1] == host[|host| - 1];
      LineEndsText(resource, HostKeyOf(host));
      hide *;
      RowAccepted(Above(l, n), None, provider, account, Some(resource + "\n" + HostKeyOf(host)));
      RowAccepted(n, Some(host + "\n" + NameKey(l)), provider, account, Some(resource));
    }
    hide *;
    SplitHostRowsCollide(digest, Above(l, n), n, host, provider, account, resource);
  }
}
