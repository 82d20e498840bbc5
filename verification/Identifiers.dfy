/** When asset identifiers and identity keys tell their subjects apart: both are joined texts, and
    a separator inside a part makes two different subjects look the same.
 */
module Identifiers {
  import opened Ordering
  import opened Texts
  import opened Models
  import opened AssetGraph
  import opened AssetPartition

  // ---- asset identifiers ---------------------------------------------------------------

  /** `"\n".join(keys)` */
  function JoinLines(keys: seq<string>): string {
    if keys == [] then "" else if |keys| == 1 then keys[0] else keys[0] + "\n" + JoinLines(keys[1..])
  }

  /** `asset-` and a digest of the joined keys. */
  function AssetId(digest: string -> string, keys: seq<string>): string {
    "asset-" + digest(JoinLines(keys))
  }

  function AssetIds(digest: string -> string): seq<string> -> string {
    keys => AssetId(digest, keys)
  }

  ghost predicate InjectiveDigest(digest: string -> string) {
    forall x, y :: digest(x) == digest(y) ==> x == y
  }

  predicate SingleLine(key: string) {
    key != "" && '\n' !in key
  }

  /** The joined text shows whether it has none, one or several keys. */
  lemma JoinLinesShape(p: seq<string>)
    requires forall k :: k in p ==> SingleLine(k)
    ensures JoinLines(p) == "" <==> p == []
    ensures '\n' in JoinLines(p) <==> |p| > 1
  {
    if p != [] {
      assert p[0] in p;
      if |p| > 1 { assert JoinLines(p)[|p[0]|] == '\n'; }
    }
  }

  lemma {:induction false} JoinLinesInjective(p: seq<string>, q: seq<string>)
    requires forall k :: k in p ==> SingleLine(k)
    requires forall k :: k in q ==> SingleLine(k)
    requires JoinLines(p) == JoinLines(q)
    ensures p == q
  {
    JoinLinesShape(p);
    JoinLinesShape(q);
    if |p| > 1 {
      assert p[0] in p && q[0] in q;
      FirstPartEqual('\n', p[0], q[0], JoinLines(p[1..]), JoinLines(q[1..]));
      JoinLinesInjective(p[1..], q[1..]);
      assert p == [p[0]] + p[1..] && q == [q[0]] + q[1..];
    }
  }

  /** With keys of one line each, an injective digest tells all asset identifiers apart. */
  lemma SingleLineKeysDistinguish(digest: string -> string, K: set<string>)
    requires InjectiveDigest(digest)
    requires forall k :: k in K ==> SingleLine(k)
    ensures Distinguishes(AssetIds(digest), K)
  {
    forall p: seq<string>, q: seq<string> |
      (forall k :: k in p ==> k in K) && (forall k :: k in q ==> k in K) && AssetIds(digest)(p) == AssetIds(digest)(q)
      ensures p == q
    {
      assert digest(JoinLines(p)) == AssetId(digest, p)[6..];
      assert digest(JoinLines(q)) == AssetId(digest, q)[6..];
      JoinLinesInjective(p, q);
    }
  }

  // ---- exactly which keys are ambiguous ------------------------------------------------------

  /** Every identity key starts with one of these. */
  predicate RealKey(key: string) {
    "source:" <= key || "fqdn:" <= key || "cloud:" <= key
  }

  /** Some later line of the key reads as the start of another key. */
  predicate Breaks(key: string) {
    exists i :: 0 <= i < |key| && key[i] == '\n' && RealKey(key[i + 1..])
  }

  ghost predicate RealKeys(keys: seq<string>) {
    forall k :: k in keys ==> RealKey(k)
  }

  lemma KeysAreReal(o: Observation)
    ensures forall k :: k in KeySet(o) ==> RealKey(k)
  {
    assert "source:" <= SourceKey(o);
    hide Lower;
  }

  /** No prefix of a key runs over a line end, so the first line of a key reads as a key. */
  lemma FirstLineIsReal(first: string, rest: string)
    requires RealKey(first + "\n" + rest)
    ensures RealKey(first)
  {
    var all := first + "\n" + rest;
    assert all[|first|] == '\n';
    LineEndsPrefix("source:", first, rest);
    LineEndsPrefix("fqdn:", first, rest);
    LineEndsPrefix("cloud:", first, rest);
  }

  lemma LineEndsPrefix(prefix: string, first: string, rest: string)
    requires '\n' !in prefix
    ensures prefix <= first + "\n" + rest ==> prefix <= first
  {
    var all := first + "\n" + rest;
    assert all[|first|] == '\n';
    if prefix <= all {
      assert forall i :: 0 <= i < |prefix| ==> prefix[i] == all[i];
      assert |prefix| <= |first|;
    }
  }

  lemma FirstKeyNotLonger(a: string, b: string, s: string, t: string)
    requires !Breaks(b) && RealKey(s) && a + "\n" + s == b + "\n" + t
    ensures |b| <= |a|
  {
    var u := a + "\n" + s;
    if |a| < |b| {
      assert u[|a|] == '\n' && b == u[..|b|];
      assert b[|a|] == '\n';
      assert s == u[|a| + 1..];
      assert s == b[|a| + 1..] + "\n" + t;
      FirstLineIsReal(b[|a| + 1..], t);
    }
  }

  lemma FirstKeyEqual(a: string, b: string, s: string, t: string)
    requires !Breaks(a) && !Breaks(b) && RealKey(s) && RealKey(t)
    requires a + "\n" + s == b + "\n" + t
    ensures a == b && s == t
  {
    FirstKeyNotLonger(a, b, s, t);
    FirstKeyNotLonger(b, a, t, s);
    var u := a + "\n" + s;
    assert a == u[..|a|] && b == u[..|b|] && s == u[|a| + 1..] && t == u[|b| + 1..];
  }

  lemma JoinedReal(q: seq<string>)
    requires RealKeys(q) && q != []
    ensures RealKey(JoinLines(q))
    ensures |q| > 1 ==> Breaks(JoinLines(q))
  {
    var u := JoinLines(q);
    assert q[0] in q;
    if |q| > 1 {
      var rest := JoinLines(q[1..]);
      assert q[1..] != [] && RealKeys(q[1..]);
      JoinedReal(q[1..]);
      assert u == q[0] + "\n" + rest;
      assert u[|q[0]|] == '\n' && u[|q[0]| + 1..] == rest;
      assert q[0] <= u;
    }
  }

  lemma {:induction false} UnbrokenJoinInjective(p: seq<string>, q: seq<string>)
    requires RealKeys(p) && RealKeys(q) && JoinLines(p) == JoinLines(q)
    requires forall k :: k in p ==> !Breaks(k)
    requires forall k :: k in q ==> !Breaks(k)
    ensures p == q
  {
    UnbrokenJoinShape(p);
    UnbrokenJoinShape(q);
    if |p| > 1 {
      UnbrokenTail(p);
      UnbrokenTail(q);
      hide *;
      FirstKeyEqual(p[0], q[0], JoinLines(p[1..]), JoinLines(q[1..]));
      UnbrokenJoinInjective(p[1..], q[1..]);
      assert p == [p[0]] + p[1..] && q == [q[0]] + q[1..];
    }
  }

  /** The joined text shows whether it has none, one or several unbroken keys. */
  lemma UnbrokenJoinShape(p: seq<string>)
    requires RealKeys(p) && forall k :: k in p ==> !Breaks(k)
    ensures JoinLines(p) == "" <==> p == []
    ensures Breaks(JoinLines(p)) <==> |p| > 1
    ensures |p| == 1 ==> p == [JoinLines(p)]
  {
    if p != [] {
      JoinedReal(p);
      assert p[0] in p;
      assert JoinLines(p) != "";
    }
    hide RealKey;
  }

  lemma UnbrokenTail(p: seq<string>)
    requires |p| > 1 && RealKeys(p) && forall k :: k in p ==> !Breaks(k)
    ensures JoinLines(p) == p[0] + "\n" + JoinLines(p[1..]) && !Breaks(p[0]) && RealKey(JoinLines(p[1..]))
    ensures RealKeys(p[1..]) && forall k :: k in p[1..] ==> !Breaks(k)
  {
    hide RealKey, Breaks;
    assert p[0] in p && p[1..] != [];
    assert RealKeys(p[1..]);
    JoinedReal(p[1..]);
  }

  /** With keys none of whose later lines reads as a key, an injective digest tells all asset
      identifiers apart. */
  lemma UnbrokenKeysDistinguish(digest: string -> string, K: set<string>)
    requires InjectiveDigest(digest)
    requires forall k :: k in K ==> RealKey(k) && !Breaks(k)
    ensures Distinguishes(AssetIds(digest), K)
  {
    hide RealKey, Breaks, JoinLines;
    forall p: seq<string>, q: seq<string> |
      (forall k :: k in p ==> k in K) && (forall k :: k in q ==> k in K) && AssetIds(digest)(p) == AssetIds(digest)(q)
      ensures p == q
    {
      assert digest(JoinLines(p)) == AssetId(digest, p)[6..];
      assert digest(JoinLines(q)) == AssetId(digest, q)[6..];
      UnbrokenJoinInjective(p, q);
    }
  }

  /** The same for the rows of a batch. */
  lemma UnbrokenRowsDistinguish(digest: string -> string, items: seq<Observation>)
    requires InjectiveDigest(digest)
    requires forall k :: k in AllKeys(items) ==> !Breaks(k)
    ensures Distinguishes(AssetIds(digest), AllKeys(items))
  {
    forall k | k in AllKeys(items) ensures RealKey(k) {
      var i :| 0 <= i < |items| && k in KeySet(items[i]);
      KeysAreReal(items[i]);
    }
    hide *;
    UnbrokenKeysDistinguish(digest, AllKeys(items));
  }

  // ---- key tuples of single observations ----------------------------------------------------

  lemma FirstCharLe(a: string, b: string)
    requires a != "" && b != "" && a[0] < b[0]
    ensures StrLe(a, b) && a != b
  {
  }

  /** The key tuple of an asset made of one observation. */
  lemma SoloKeys(o: Observation, assetId: seq<string> -> string)
    ensures Consolidate([o], assetId).correlationKeys == SortedSet(KeySet(o))
    ensures Consolidate([o], assetId).assetId == assetId(SortedSet(KeySet(o)))
  {
    hide KeySet, SortedSet, AllKeys, HostnamesIn, KindsIn, SourcesIn, AddressesIn;
    assert Sort([o], ObservationLe) == [o] by { assert Sort([o][1..], ObservationLe) == []; }
    assert AllKeys([o]) == KeySet(o);
  }

  // ---- source keys ------------------------------------------------------------------------

  function RowText(source: string, id: string): string {
    source + ":" + id
  }

  lemma SameSourceKey(o: Observation, p: Observation)
    ensures SourceKey(o) == SourceKey(p) <==> RowText(o.source, o.sourceRecordId) == RowText(p.source, p.sourceRecordId)
  {
    assert SourceKey(o) == "source:" + RowText(o.source, o.sourceRecordId);
    assert SourceKey(p) == "source:" + RowText(p.source, p.sourceRecordId);
    assert RowText(o.source, o.sourceRecordId) == SourceKey(o)[7..];
    assert RowText(p.source, p.sourceRecordId) == SourceKey(p)[7..];
  }

  /** At colon `i` the row text splits into a source and a record id that validation accepts. */
  predicate SplitsAt(text: string, i: nat) {
    i < |text| && text[i] == ':' && SourceText(text[..i]) && RequiredText(text[i + 1..])
  }

  lemma RowTextParts(source: string, id: string)
    ensures var t := RowText(source, id);
            |t| == |source| + 1 + |id| && t[|source|] == ':' && t[..|source|] == source && t[|source| + 1..] == id
  {
  }

  /** The source key of a row is its own, among all rows that validation accepts, exactly when no
      colon other than the joining one splits its row text into an acceptable source and record id. */
  lemma SourceKeyIdentifiesRow(o: Observation)
    requires WellFormed(o)
    ensures (forall i: nat :: SplitsAt(RowText(o.source, o.sourceRecordId), i) ==> i == |o.source|) <==>
            (forall p :: WellFormed(p) && SourceKey(p) == SourceKey(o) ==> RowName(p) == RowName(o))
  {
    var t := RowText(o.source, o.sourceRecordId);
    RowTextParts(o.source, o.sourceRecordId);
    hide SourceKey, RowText, Stripped, Lower, HostText;
    if forall i: nat :: SplitsAt(t, i) ==> i == |o.source| {
      forall p | WellFormed(p) && SourceKey(p) == SourceKey(o) ensures RowName(p) == RowName(o) {
        SameSourceKey(o, p);
        RowTextParts(p.source, p.sourceRecordId);
        assert SplitsAt(t, |p.source|);
      }
    } else {
      var i: nat :| SplitsAt(t, i) && i != |o.source|;
      var p := o.(source := t[..i], sourceRecordId := t[i + 1..]);
      RowTextParts(p.source, p.sourceRecordId);
      assert RowText(p.source, p.sourceRecordId) == t by {
        RowTextJoins(t, i);
      }
      SameSourceKey(o, p);
      assert |t[..i]| == i;
      assert WellFormed(p) && RowName(p) != RowName(o);
    }
  }

  lemma RowTextJoins(t: string, i: nat)
    requires i < |t| && t[i] == ':'
    ensures RowText(t[..i], t[i + 1..]) == t
  {
  }

  /** Rows with equal source keys end in one asset, even when they are different rows. */
  lemma SameSourceKeyMerges(o: Observation, p: Observation, assetId: seq<string> -> string)
    requires SourceKey(o) == SourceKey(p)
    ensures Together(Correlate([o, p], assetId), o, p)
  {
    hide Correlate, Linked;
    assert o in [o, p] && p in [o, p];
    assert SourceKey(o) in KeySet(o) * KeySet(p);
    assert [o, p][0] == o && [o, p][1] == p;
    RangeMembers([o, p]);
    LinkedEdge(Range([o, p]), o, p);
    TogetherIffLinked([o, p], assetId, o, p);
  }
}
