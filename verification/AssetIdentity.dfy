/** When two assets of one batch share an asset id: the digest joins sorted keys by line ends, each
    sorted tuple ends with a source key, and so one of two such source keys ends with the other.
 */
module AssetIdentity {
  import opened Ordering
  import opened Texts
  import opened Models
  import opened AssetGraph
  import opened AssetPartition
  import opened Identifiers

  type Name = (string, string)

  function NameKey(n: Name): string {
    "source:" + n.0 + ":" + n.1
  }

  predicate ValidName(n: Name) {
    SourceText(n.0) && RequiredText(n.1)
  }

  /** `text` is some lines and then the lines of `tail`. */
  predicate EndsWithLine(text: string, tail: string) {
    |tail| < |text| && text[|text| - |tail|..] == tail && text[|text| - |tail| - 1] == '\n'
  }

  /** The source key of `m` ends with the source key of `n`. */
  predicate Nests(m: Name, n: Name) {
    EndsWithLine(NameKey(m), NameKey(n))
  }

  /** What the source key of `m` has before the source key of `n`. */
  function Head(m: Name, n: Name): string
    requires Nests(m, n)
  {
    NameKey(m)[..|NameKey(m)| - |NameKey(n)| - 1]
  }

  lemma HeadJoins(m: Name, n: Name)
    requires Nests(m, n)
    ensures NameKey(m) == Head(m, n) + "\n" + NameKey(n)
  {
  }

  lemma HeadShape(m: Name, n: Name)
    requires Nests(m, n)
    ensures Head(m, n) != "" && Head(m, n)[0] != '\n'
  {
    var a, b := NameKey(m), NameKey(n);
    assert a[..7] == "source:" && b[0] == 's';
    assert a[0] == 's';
  }

  // ---- joined texts --------------------------------------------------------------------------

  lemma {:induction false} JoinLinesAppend(p: seq<string>, q: seq<string>)
    requires p != [] && q != []
    ensures JoinLines(p + q) == JoinLines(p) + "\n" + JoinLines(q)
  {
    assert (p + q)[0] == p[0];
    if |p| == 1 {
      assert (p + q)[1..] == q;
    } else {
      assert (p + q)[1..] == p[1..] + q;
      JoinLinesAppend(p[1..], q);
    }
  }

  lemma JoinLinesLast(p: seq<string>)
    requires |p| > 1
    ensures JoinLines(p) == JoinLines(p[..|p| - 1]) + "\n" + p[|p| - 1]
  {
    var most, last := p[..|p| - 1], p[|p| - 1];
    assert p == most + [last];
    hide JoinLines;
    JoinLinesAppend(most, [last]);
    JoinLinesOne(last);
  }

  lemma JoinLinesOne(k: string)
    ensures JoinLines([k]) == k
  {
  }

  lemma SingleText(p: seq<string>)
    ensures |p| == 1 ==> JoinLines(p) == p[0]
  {
  }

  /** `s` ends with `t`. */
  predicate Ends(s: string, t: string) {
    |t| <= |s| && s[|s| - |t|..] == t
  }

  lemma EndLength(s: string, t: string)
    requires Ends(s, t)
    ensures |t| <= |s|
  {
  }

  lemma JoinedEnds(p: seq<string>)
    requires p != []
    ensures Ends(JoinLines(p), p[|p| - 1])
  {
    if |p| > 1 { JoinLinesLast(p); }
  }

  /** When two tuples join to one text, the shorter of their last keys ends the longer. */
  lemma ShorterLastKey(p: seq<string>, q: seq<string>)
    requires p != [] && q != [] && JoinLines(p) == JoinLines(q) && |p[|p| - 1]| < |q[|q| - 1]|
    ensures |p| > 1 && EndsWithLine(q[|q| - 1], p[|p| - 1])
    ensures var long, short := q[|q| - 1], p[|p| - 1];
            Ends(JoinLines(p[..|p| - 1]), long[..|long| - |short| - 1])
  {
    hide *;
    var long, short, t := q[|q| - 1], p[|p| - 1], JoinLines(p);
    JoinedEnds(q);
    EndLength(t, long);
    SingleText(p);
    JoinLinesLast(p);
    LongerEnd(t, JoinLines(p[..|p| - 1]), short, long);
  }

  lemma LongerEnd(t: string, u: string, short: string, long: string)
    requires t == u + "\n" + short && Ends(t, long) && |short| < |long|
    ensures EndsWithLine(long, short) && Ends(u, long[..|long| - |short| - 1])
  {
    var d := |t| - |long|;
    assert forall i :: 0 <= i < |long| ==> long[i] == t[d + i];
    assert t[|u|] == '\n';
    assert long[|long| - |short|..] == t[|u| + 1..] == short;
    assert u[d..] == long[..|long| - |short| - 1];
  }

  lemma SameLengthEnd(t: string, a: string, b: string)
    requires Ends(t, a) && Ends(t, b) && |a| == |b|
    ensures a == b
  {
  }

  // ---- the key tuple of an asset ----------------------------------------------------------------

  /** `p` is the sorted tuple of the keys of `rows`. */
  ghost predicate TupleOf(p: seq<string>, rows: seq<Observation>) {
    rows != [] && StrictlySorted(p) && forall k :: k in p <==> HasKey(rows, k)
  }

  lemma AssetTuple(items: seq<Observation>, assetId: seq<string> -> string, a: Asset)
    requires a in Correlate(items, assetId)
    ensures TupleOf(a.correlationKeys, a.observations)
    ensures forall o :: o in a.observations ==> o in items
  {
    AssetsAreGroups(items, assetId);
    hide *;
    var k :| 0 <= k < |Groups(items)| && a == Consolidate(Groups(items)[k], assetId);
    GroupNonempty(items, k);
    GroupRows(items, k);
    ConsolidatedTuple(Groups(items)[k], assetId);
  }

  lemma ConsolidatedTuple(g: seq<Observation>, assetId: seq<string> -> string)
    requires g != []
    ensures var a := Consolidate(g, assetId); TupleOf(a.correlationKeys, a.observations)
    ensures forall o :: o in Consolidate(g, assetId).observations <==> o in g
  {
    ConsolidateFacts(g, assetId);
    AssetKeysSorted(g, assetId);
    hide Consolidate, KeySet, StrictlySorted;
    var a := Consolidate(g, assetId);
    assert g[0] in a.observations;
    SameRowsSameKeys(a.observations, g);
  }

  lemma SameRowsSameKeys(g: seq<Observation>, h: seq<Observation>)
    requires forall o :: o in g <==> o in h
    ensures forall k :: HasKey(g, k) <==> HasKey(h, k)
  {
    hide KeySet;
  }

  lemma AssetKeysSorted(g: seq<Observation>, assetId: seq<string> -> string)
    ensures StrictlySorted(Consolidate(g, assetId).correlationKeys)
  {
    hide StrictlySorted;
  }

  lemma GroupRows(items: seq<Observation>, k: nat)
    requires k < |Groups(items)|
    ensures forall o :: o in Groups(items)[k] ==> o in items
  {
    var leader := Leaders(items, |items|)[k];
    assert leader in Leaders(items, |items|);
    GroupMembers(items, leader, |items|);
  }

  /** Source keys sort after all others, so the last key of a tuple is the source key of a row. */
  lemma LastKeyIsSource(p: seq<string>, rows: seq<Observation>) returns (o: Observation)
    requires TupleOf(p, rows)
    ensures o in rows && p != [] && p[|p| - 1] == SourceKey(o)
  {
    assert SourceKey(rows[0]) in KeySet(rows[0]);
    assert HasKey(rows, SourceKey(rows[0]));
    var i :| 0 <= i < |p| && p[i] == SourceKey(rows[0]);
    var last := p[|p| - 1];
    assert last in p;
    o :| o in rows && last in KeySet(o);
    KeyKinds(rows[0], p[i]);
    KeyKinds(o, last);
    if i < |p| - 1 { FirstChars(p[i], last); }
  }

  lemma KeyKinds(o: Observation, k: string)
    requires k in KeySet(o)
    ensures k != "" && (k[0] == 's' || k[0] == 'f' || k[0] == 'c')
    ensures k[0] == 's' ==> k == SourceKey(o)
    ensures k[0] == 'f' ==> k in FqdnKeys(o)
    ensures k[0] == 'c' ==> k in CloudKeys(o)
  {
    hide Lower;
  }

  lemma FirstChars(a: string, b: string)
    requires a != "" && b != "" && StrLe(a, b)
    ensures a[0] <= b[0]
  {
  }

  // ---- two assets of one id -----------------------------------------------------------------------

  lemma SameIdSameText(digest: string -> string, items: seq<Observation>, x: Asset, y: Asset)
    requires InjectiveDigest(digest) && x.assetId == y.assetId
    requires x in Correlate(items, AssetIds(digest)) && y in Correlate(items, AssetIds(digest))
    ensures JoinLines(x.correlationKeys) == JoinLines(y.correlationKeys)
  {
    DistinctAssetsDisjoint(items, AssetIds(digest));
    hide Correlate, JoinLines;
    assert digest(JoinLines(x.correlationKeys)) == AssetIds(digest)(x.correlationKeys)[6..];
    assert digest(JoinLines(y.correlationKeys)) == AssetIds(digest)(y.correlationKeys)[6..];
  }

  /** The row `o` of asset `x` and the row `p` of asset `y` have nested source keys. */
  ghost predicate NestedRows(x: Asset, y: Asset, o: Observation, p: Observation) {
    && o in x.observations && p in y.observations && Nests(RowName(o), RowName(p))
    && |y.correlationKeys| > 1
    && Ends(JoinLines(y.correlationKeys[..|y.correlationKeys| - 1]), Head(RowName(o), RowName(p)))
  }

  lemma NestedLastKeys(items: seq<Observation>, assetId: seq<string> -> string, x: Asset, y: Asset)
    requires x in Correlate(items, assetId) && y in Correlate(items, assetId)
    requires JoinLines(x.correlationKeys) == JoinLines(y.correlationKeys)
    requires x.correlationKeys != [] && y.correlationKeys != []
    requires |y.correlationKeys[|y.correlationKeys| - 1]| < |x.correlationKeys[|x.correlationKeys| - 1]|
    ensures exists o, p :: NestedRows(x, y, o, p)
  {
    hide *;
    AssetTuple(items, assetId, x);
    AssetTuple(items, assetId, y);
    var o := LastKeyIsSource(x.correlationKeys, x.observations);
    var p := LastKeyIsSource(y.correlationKeys, y.observations);
    ShorterLastKey(y.correlationKeys, x.correlationKeys);
    NestedRowsFound(x, y, o, p);
  }

  lemma NestedRowsFound(x: Asset, y: Asset, o: Observation, p: Observation)
    requires o in x.observations && p in y.observations && |y.correlationKeys| > 1 && EndsWithLine(SourceKey(o), SourceKey(p))
    requires Ends(JoinLines(y.correlationKeys[..|y.correlationKeys| - 1]), SourceKey(o)[..|SourceKey(o)| - |SourceKey(p)| - 1])
    ensures NestedRows(x, y, o, p)
  {
    assert NameKey(RowName(o)) == SourceKey(o) && NameKey(RowName(p)) == SourceKey(p);
    hide JoinLines, SourceKey, NameKey, Ends;
  }

  /** Two assets of one batch share an id only when a source key of one ends with a source key of
      the other. */
  lemma EqualIdsNest(digest: string -> string, items: seq<Observation>, x: Asset, y: Asset)
    requires InjectiveDigest(digest) && x != y && x.assetId == y.assetId
    requires x in Correlate(items, AssetIds(digest)) && y in Correlate(items, AssetIds(digest))
    ensures (exists o, p :: NestedRows(x, y, o, p)) || (exists o, p :: NestedRows(y, x, o, p))
  {
    hide *;
    SameIdSameText(digest, items, x, y);
    AssetsApart(items, AssetIds(digest), x, y);
    LastKeysDiffer(x, y);
    if |y.correlationKeys[|y.correlationKeys| - 1]| < |x.correlationKeys[|x.correlationKeys| - 1]| {
      NestedLastKeys(items, AssetIds(digest), x, y);
    } else {
      NestedLastKeys(items, AssetIds(digest), y, x);
    }
  }

  lemma AssetsApart(items: seq<Observation>, assetId: seq<string> -> string, x: Asset, y: Asset)
    requires x in Correlate(items, assetId) && y in Correlate(items, assetId) && x != y
    ensures KeysDisjoint(x, y) && x.correlationKeys != [] && y.correlationKeys != []
  {
    hide *;
    DistinctAssetsDisjoint(items, assetId);
  }

  lemma LastKeysDiffer(x: Asset, y: Asset)
    requires KeysDisjoint(x, y) && x.correlationKeys != [] && y.correlationKeys != []
    requires JoinLines(x.correlationKeys) == JoinLines(y.correlationKeys)
    ensures |y.correlationKeys[|y.correlationKeys| - 1]| != |x.correlationKeys[|x.correlationKeys| - 1]|
  {
    hide *;
    var p, q := x.correlationKeys, y.correlationKeys;
    var a, b := p[|p| - 1], q[|q| - 1];
    if |a| == |b| {
      JoinedEnds(p);
      JoinedEnds(q);
      SameLengthEnd(JoinLines(p), a, b);
      assert a in p && b in q;
      CommonKey(x, y, a);
    }
  }

  lemma CommonKey(x: Asset, y: Asset, k: string)
    requires k in x.correlationKeys && k in y.correlationKeys
    ensures !KeysDisjoint(x, y)
  {
  }

  /** No source key of the batch ends with another, on a line of its own. */
  predicate Unnested(items: seq<Observation>) {
    forall i, j :: 0 <= i < |items| && 0 <= j < |items| ==> !Nests(RowName(items[i]), RowName(items[j]))
  }

  lemma UnnestedMembers(items: seq<Observation>, o: Observation, p: Observation)
    requires Unnested(items) && o in items && p in items
    ensures !Nests(RowName(o), RowName(p))
  {
    hide Nests;
    var i :| 0 <= i < |items| && items[i] == o;
    var j :| 0 <= j < |items| && items[j] == p;
  }

  /** A batch without nested source keys has distinct asset ids, for every injective digest. */
  lemma UnnestedIdsDistinct(digest: string -> string, items: seq<Observation>)
    requires InjectiveDigest(digest) && Unnested(items)
    ensures DistinctAssetIds(Correlate(items, AssetIds(digest)))
  {
    hide *;
    var A := Correlate(items, AssetIds(digest));
    forall x, y | x in A && y in A && x.assetId == y.assetId ensures x == y {
      AssetTuple(items, AssetIds(digest), x);
      AssetTuple(items, AssetIds(digest), y);
      if x != y {
        EqualIdsNest(digest, items, x, y);
        if o, p :| NestedRows(x, y, o, p) {
          NestedNames(x, y, o, p);
          UnnestedMembers(items, o, p);
        }
        if o, p :| NestedRows(y, x, o, p) {
          NestedNames(y, x, o, p);
          UnnestedMembers(items, o, p);
        }
      }
    }
    DistinctMeans(A);
  }

  lemma DistinctMeans(assets: seq<Asset>)
    requires forall x, y :: x in assets && y in assets && x.assetId == y.assetId ==> x == y
    ensures DistinctAssetIds(assets)
  {
  }

  lemma NestedNames(x: Asset, y: Asset, o: Observation, p: Observation)
    requires NestedRows(x, y, o, p)
    ensures o in x.observations && p in y.observations && Nests(RowName(o), RowName(p))
  {
  }

  // ---- what a source key can follow -----------------------------------------------------------

  predicate HostLike(text: string) {
    ' ' !in text && Lower(text) == text
  }

  lemma HostLikeMeans(text: string)
    ensures HostLike(text) <==> forall i :: 0 <= i < |text| ==> text[i] != ' ' && !('A' <= text[i] <= 'Z')
  {
    LowerMeans(text);
    hide Lower;
  }

  lemma HostLikeParts(a: string, b: string)
    ensures HostLike(a + b) <==> HostLike(a) && HostLike(b)
  {
    HostLikeMeans(a);
    HostLikeMeans(b);
    HostLikeMeans(a + b);
    hide HostLike;
    assert forall i :: 0 <= i < |a| ==> (a + b)[i] == a[i];
    assert forall i :: 0 <= i < |b| ==> (a + b)[|a| + i] == b[i];
  }

  lemma FqdnHostLike()
    ensures HostLike("fqdn:")
  {
    HostLikeMeans("fqdn:");
  }

  lemma LineEndHostLike()
    ensures HostLike("\n")
  {
    HostLikeMeans("\n");
  }

  /** A hostname key that `identity_keys` can make. */
  predicate HostKey(k: string) {
    "fqdn:" <= k && HostText(k[5..]) && '.' in k[5..]
  }

  /** From `j` on the text is a hostname key, and a cloud key can end before it. */
  predicate HostTail(text: string, j: nat) {
    2 <= j < |text| && text[j - 1] == '\n' && !IsSpace(text[j - 2]) && HostKey(text[j..])
  }

  /** The text can end the keys that stand before a source key: it ends as a cloud key can, or it
      can stand inside a hostname, or its last lines are hostname keys of their own. */
  predicate CanEndKey(text: string) {
    text != "" &&
    (!IsSpace(text[|text| - 1]) || HostLike(text) || exists j: nat :: j < |text| && HostTail(text, j))
  }

  lemma HostKeyChars(k: string)
    requires HostKey(k)
    ensures HostLike(k)
  {
    var t := HostOf(k);
    FqdnHostLike();
    HostTextMeans(t);
    hide *;
    HostLikeParts("fqdn:", t);
  }

  lemma HostKeysJoin(a: string, b: string)
    requires HostKey(a) && HostKey(b)
    ensures HostKey(a + "\n" + b)
  {
    hide *;
    var t := HostOf(a);
    HostTextContinued(t, b);
    DotAppended(t, "\n" + b);
    LineText(t, b);
    HostKeyFrom(t + "\n" + b);
    PrefixLine("fqdn:", t, b);
  }

  lemma HostOf(k: string) returns (t: string)
    requires HostKey(k)
    ensures k == "fqdn:" + t && HostText(t) && '.' in t
  {
    t := k[5..];
    hide HostText;
    assert k == "fqdn:" + k[5..];
  }

  lemma PrefixLine(prefix: string, a: string, b: string)
    ensures prefix + a + "\n" + b == prefix + (a + "\n" + b)
  {
  }

  lemma LineText(a: string, b: string)
    ensures a + ("\n" + b) == a + "\n" + b
  {
  }

  lemma HostKeyFrom(t: string)
    requires HostText(t) && '.' in t
    ensures HostKey("fqdn:" + t)
  {
    hide HostText;
    assert ("fqdn:" + t)[5..] == t;
  }

  lemma HostTextContinued(t: string, b: string)
    requires HostText(t) && HostKey(b)
    ensures HostText(t + "\n" + b)
  {
    hide *;
    HostKeyEnd(b);
    HostTextMeans(t);
    HostTextMeans(t + "\n" + b);
    LineEndHostLike();
    HostLikeParts(t, "\n");
    HostLikeParts(t + "\n", b);
    LineEnds(t, b);
  }

  lemma LineEnds(t: string, b: string)
    ensures var k := t + "\n" + b;
            k != "" && (t != "" ==> k[0] == t[0]) && (b != "" ==> k[|k| - 1] == b[|b| - 1])
  {
  }

  lemma HostKeyEnd(k: string)
    requires HostKey(k)
    ensures k != "" && HostLike(k) && k[|k| - 1] != '.'
  {
    HostKeyChars(k);
    var t := HostOf(k);
    HostTextMeans(t);
    hide *;
    assert k[|k| - 1] == t[|t| - 1];
  }

  lemma HostTextMeans(t: string)
    ensures HostText(t) <==> t != "" && HostLike(t) && !IsSpace(t[0]) && t[0] != '.' && t[|t| - 1] != '.'
  {
    hide IsSpace, Lower;
  }

  lemma DotAppended(a: string, b: string)
    ensures '.' in a ==> '.' in a + b
    ensures '.' in b ==> '.' in a + b
  {
  }

  lemma {:induction false} HostKeysJoined(p: seq<string>)
    requires p != [] && forall k :: k in p ==> HostKey(k)
    ensures HostKey(JoinLines(p))
  {
    hide HostKey;
    assert p[0] in p;
    if |p| > 1 {
      HostKeysJoined(p[1..]);
      HostKeysJoin(p[0], JoinLines(p[1..]));
    }
  }

  lemma KeyEnds(o: Observation, k: string)
    requires WellFormed(o) && k in KeySet(o)
    ensures k != "" && (k[0] == 'f' || k[0] == 'c' || k[0] == 's')
    ensures k[0] == 'f' ==> HostKey(k)
    ensures k[0] != 'f' ==> !IsSpace(k[|k| - 1])
  {
    KeyKinds(o, k);
    hide Lower, IsSpace;
    if k[0] == 'f' {
      assert k[5..] == o.hostname.value;
    } else if k[0] == 'c' {
      assert k[|k| - 1] == o.cloudResourceId.value[|o.cloudResourceId.value| - 1];
    } else {
      assert k[|k| - 1] == o.sourceRecordId[|o.sourceRecordId| - 1];
    }
  }

  ghost predicate Validated(items: seq<Observation>) {
    forall o :: o in items ==> WellFormed(o)
  }

  lemma TupleKeyEnds(p: seq<string>, rows: seq<Observation>, i: nat)
    requires TupleOf(p, rows) && Validated(rows) && i < |p|
    ensures p[i] != "" && (p[i][0] == 'f' || p[i][0] == 'c' || p[i][0] == 's')
    ensures p[i][0] == 'f' ==> HostKey(p[i])
    ensures p[i][0] != 'f' ==> !IsSpace(p[i][|p[i]| - 1])
  {
    hide WellFormed, KeySet, IsSpace, HostKey, StrictlySorted;
    assert p[i] in p;
    var o :| o in rows && p[i] in KeySet(o);
    KeyEnds(o, p[i]);
  }

  /** Where the hostname keys of a tuple start, when its last key but one is one of them. */
  lemma HostKeysStart(p: seq<string>, rows: seq<Observation>) returns (f: nat)
    requires TupleOf(p, rows) && Validated(rows) && |p| > 1 && p[|p| - 2] != "" && p[|p| - 2][0] == 'f'
    ensures f < |p| - 1 && forall k :: k in p[f..|p| - 1] ==> HostKey(k)
    ensures f > 0 ==> p[f - 1] != "" && !IsSpace(p[f - 1][|p[f - 1]| - 1])
  {
    hide TupleOf, Validated, IsSpace, HostKey;
    f := |p| - 2;
    TupleKeyEnds(p, rows, f);
    assert p[f..|p| - 1] == [p[f]];
    while f > 0 && p[f - 1] != "" && p[f - 1][0] == 'f'
      invariant f < |p| - 1 && forall k :: k in p[f..|p| - 1] ==> HostKey(k)
    {
      TupleKeyEnds(p, rows, f - 1);
      assert p[f - 1..|p| - 1] == [p[f - 1]] + p[f..|p| - 1];
      f := f - 1;
    }
    if f > 0 { TupleKeyEnds(p, rows, f - 1); }
  }

  lemma LastChar(u: string, t: string)
    requires Ends(u, t) && t != ""
    ensures u != "" && u[|u| - 1] == t[|t| - 1]
  {
  }

  lemma HostSuffix(f: string, h: string)
    requires HostKey(f) && Ends(f, h)
    ensures HostLike(h)
  {
    HostKeyChars(f);
    HostLikeParts(f[..|f| - |h|], h);
    assert f == f[..|f| - |h|] + h;
  }

  lemma HostTailFound(u: string, c: string, f: string, h: string)
    requires u == c + "\n" + f && c != "" && !IsSpace(c[|c| - 1]) && HostKey(f)
    requires Ends(u, h) && h != "" && h[0] != '\n' && |h| > |f|
    ensures HostTail(h, |h| - |f|)
  {
    hide IsSpace, HostKey;
    var j, d := |h| - |f|, |u| - |h|;
    assert h == u[d..] && f == u[|c| + 1..] && u[|c|] == '\n' && c == u[..|c|];
    assert h[j..] == f;
    assert h[j - 1] == u[|c|];
    assert h[0] == u[d];
    if j == 1 { assert false; }
    assert h[j - 2] == u[|c| - 1] == c[|c| - 1];
    assert |f| > 0 by { HostKeyNonempty(f); }
  }

  lemma HostKeyNonempty(k: string)
    requires HostKey(k)
    ensures k != ""
  {
  }

  /** Whatever stands before the last key of a validated tuple can end keys. */
  lemma TupleEnds(p: seq<string>, rows: seq<Observation>, h: string)
    requires TupleOf(p, rows) && Validated(rows) && |p| > 1 && Ends(JoinLines(p[..|p| - 1]), h) && h != "" && h[0] != '\n'
    ensures CanEndKey(h)
  {
    hide *;
    var most := p[..|p| - 1];
    var u, k := JoinLines(most), p[|p| - 2];
    TupleKeyEnds(p, rows, |p| - 2);
    JoinedEnds(most);
    assert most[|most| - 1] == k;
    LastChar(u, k);
    LastChar(u, h);
    if k[0] != 'f' {
      EndsPlain(h);
    } else {
      var f := HostKeysStart(p, rows);
      var hosts := p[f..|p| - 1];
      HostKeysJoined(hosts);
      if f > 0 {
        assert most == p[..f] + hosts;
        JoinLinesAppend(p[..f], hosts);
        JoinedEnds(p[..f]);
        assert p[..f][|p[..f]| - 1] == p[f - 1];
        LastChar(JoinLines(p[..f]), p[f - 1]);
      } else {
        assert hosts == most;
      }
      if |h| <= |JoinLines(hosts)| {
        ShortEnd(u, JoinLines(hosts), h);
        HostSuffix(JoinLines(hosts), h);
        EndsInHost(h);
      } else if f > 0 {
        HostTailFound(u, JoinLines(p[..f]), JoinLines(hosts), h);
        EndsWithHosts(h, |h| - |JoinLines(hosts)|);
      } else {
        EndLength(u, h);
        assert false;
      }
    }
  }

  lemma ShortEnd(u: string, f: string, h: string)
    requires Ends(u, h) && |h| <= |f| && (u == f || exists c: string :: u == c + "\n" + f)
    ensures Ends(f, h)
  {
    assert f == u[|u| - |f|..];
    assert f[|f| - |h|..] == u[|u| - |h|..];
  }

  lemma EndsPlain(h: string)
    requires h != "" && !IsSpace(h[|h| - 1])
    ensures CanEndKey(h)
  {
  }

  lemma EndsInHost(h: string)
    requires h != "" && HostLike(h)
    ensures CanEndKey(h)
  {
  }

  lemma EndsWithHosts(h: string, j: nat)
    requires HostTail(h, j)
    ensures CanEndKey(h)
  {
  }
}
