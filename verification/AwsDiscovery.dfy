/** Import of a saved EC2 export: nested loops over reservations, instances and tags that
    accept or reject the whole export and project each instance to one observation.
 */
module AwsDiscovery {
  import opened Ordering
  import opened Models
  import opened AssetGraph
  import opened AssetPartition
  import opened AssetGrowth
  import opened Identifiers

  const SOURCE := "aws-ec2-export"
  const MAX_INSTANCES := 10000
  const MAX_TAGS := 100
  const REVIEW_TAGS: set<string> := {"environment", "owner_group", "service"}
  const ALLOWED_SCOPES: set<string> := {"synthetic", "owned", "authorized"}
  const AREAS: set<string> := {"af-", "ap-", "ca-", "eu-", "il-", "me-", "mx-", "sa-", "us-"}

  datatype Tag = Tag(key: string, value: string)
  datatype Instance = Instance(instanceId: string, privateIp: Option<string>, publicIp: Option<string>, tags: seq<Tag>)
  datatype Reservation = Reservation(ownerId: string, instances: seq<Instance>)
  datatype Export = Export(nextToken: Option<string>, reservations: seq<Reservation>)

  /** Where an instance stood in the export, counted from 1. */
  datatype SourceRow = SourceRow(sourceRecordId: string, reservation: nat, instance: nat)
  datatype Fixture = Fixture(assets: seq<Observation>, references: seq<SourceRow>)

  /** The claimed account and region of an export, and which texts are literal IPv4 addresses. */
  datatype Context = Context(account: string, region: string, isIpv4: string -> bool)

  predicate IsHex(c: char) { '0' <= c <= '9' || 'a' <= c <= 'f' }

  predicate IsInstanceId(id: string) {
    && (|id| == 10 || |id| == 19)
    && id[..2] == "i-"
    && forall i :: 2 <= i < |id| ==> IsHex(id[i])
  }

  predicate IsLabelStart(c: char) { '0' <= c <= '9' || 'a' <= c <= 'z' || 'A' <= c <= 'Z' }

  predicate IsLabel(value: string) {
    && 1 <= |value| <= 64
    && IsLabelStart(value[0])
    && forall i :: 0 < i < |value| ==> IsLabelStart(value[i]) || value[i] in "._-"
  }

  function Arn(context: Context, id: string): string {
    "arn:aws:ec2:" + context.region + ":" + context.account + ":instance/" + id
  }

  lemma ArnInjective(context: Context, a: string, b: string)
    requires Arn(context, a) == Arn(context, b)
    ensures a == b
  {
    var prefix := "arn:aws:ec2:" + context.region + ":" + context.account + ":instance/";
    assert a == (prefix + a)[|prefix|..];
    assert b == (prefix + b)[|prefix|..];
  }

  // ---- acceptance and projection of one instance ----------------------------------------

  predicate GoodAddress(context: Context, value: Option<string>) {
    value.Some? ==> '%' !in value.value && context.isIpv4(value.value)
  }

  function Addresses(instance: Instance): set<string> {
    (if instance.privateIp.Some? then {instance.privateIp.value} else {}) +
    (if instance.publicIp.Some? then {instance.publicIp.value} else {})
  }

  predicate GoodTags(tags: seq<Tag>) {
    && (forall i, j :: 0 <= i < j < |tags| ==> tags[i].key != tags[j].key)
    && (forall i :: 0 <= i < |tags| && tags[i].key in REVIEW_TAGS ==> IsLabel(tags[i].value))
  }

  function ReviewTags(tags: seq<Tag>): map<string, string> {
    if tags == [] then map[]
    else
      var last := tags[|tags| - 1];
      var rest := ReviewTags(tags[..|tags| - 1]);
      if last.key in REVIEW_TAGS then rest[last.key := last.value] else rest
  }

  predicate GoodInstance(context: Context, instance: Instance) {
    && IsInstanceId(instance.instanceId)
    && GoodAddress(context, instance.privateIp) && GoodAddress(context, instance.publicIp)
    && |instance.tags| <= MAX_TAGS && GoodTags(instance.tags)
  }

  function Claim(context: Context, instance: Instance): Observation {
    var arn := Arn(context, instance.instanceId);
    Observation(SOURCE, arn, "server", None, SortedSet(Addresses(instance)),
                Some("aws"), Some(context.account), Some(arn), ReviewTags(instance.tags))
  }

  // ---- acceptance of a whole export ---------------------------------------------------------

  datatype Row = Row(reservation: nat, position: nat, instance: Instance)

  function InstanceRows(instances: seq<Instance>, reservation: nat): (r: seq<Row>)
    ensures |r| == |instances|
    ensures forall i :: 0 <= i < |r| ==> r[i] == Row(reservation, i + 1, instances[i])
  {
    seq(|instances|, i requires 0 <= i < |instances| => Row(reservation, i + 1, instances[i]))
  }

  /** Every instance of the export with its position. */
  function Rows(reservations: seq<Reservation>): seq<Row> {
    if reservations == [] then []
    else
      var n := |reservations|;
      Rows(reservations[..n - 1]) + InstanceRows(reservations[n - 1].instances, n)
  }

  predicate AcceptedRows(context: Context, rows: seq<Row>) {
    && |rows| <= MAX_INSTANCES
    && (forall i :: 0 <= i < |rows| ==> GoodInstance(context, rows[i].instance))
    && (forall i, j :: 0 <= i < j < |rows| ==> rows[i].instance.instanceId != rows[j].instance.instanceId)
  }

  predicate IsAccount(account: string) {
    |account| == 12 && forall i :: 0 <= i < 12 ==> '0' <= account[i] <= '9'
  }

  /** A commercial region name: an area, a lower-case word and a number, joined by hyphens. */
  predicate IsRegion(region: string) {
    && |region| >= 3 && region[..3] in AREAS
    && exists k :: 3 < k < |region| - 1 && IsRegionTail(region, k)
  }

  predicate IsRegionTail(region: string, k: nat)
    requires 3 < k < |region| - 1
  {
    && (forall i :: 3 <= i < k ==> 'a' <= region[i] <= 'z') && region[k] == '-'
    && '1' <= region[k + 1] <= '9' && (forall i :: k + 1 < i < |region| ==> '0' <= region[i] <= '9')
  }

  predicate Accepted(context: Context, reservations: seq<Reservation>) {
    && IsAccount(context.account) && IsRegion(context.region)
    && |reservations| <= MAX_INSTANCES
    && (forall i :: 0 <= i < |reservations| ==> reservations[i].ownerId == context.account)
    && AcceptedRows(context, Rows(reservations))
  }

  /** An export whose pagination has finished, under an explicit scope. */
  predicate AcceptedExport(scope: string, context: Context, export_: Export) {
    scope in ALLOWED_SCOPES && export_.nextToken in {None, Some("")} && Accepted(context, export_.reservations)
  }

  function Claims(context: Context, rows: seq<Row>): (r: seq<Observation>)
    ensures |r| == |rows|
    ensures forall i :: 0 <= i < |r| ==> r[i] == Claim(context, rows[i].instance)
  {
    seq(|rows|, i requires 0 <= i < |rows| => Claim(context, rows[i].instance))
  }

  function References(context: Context, rows: seq<Row>): (r: seq<SourceRow>)
    ensures |r| == |rows|
    ensures forall i :: 0 <= i < |r| ==>
              r[i] == SourceRow(Arn(context, rows[i].instance.instanceId), rows[i].reservation, rows[i].position)
  {
    seq(|rows|, i requires 0 <= i < |rows| =>
      SourceRow(Arn(context, rows[i].instance.instanceId), rows[i].reservation, rows[i].position))
  }

  predicate RecordLe(a: Observation, b: Observation) {
    StrLe(a.sourceRecordId, b.sourceRecordId)
  }

  // ---- the loops --------------------------------------------------------------------------------

  method ReadTags(tags: seq<Tag>) returns (result: Result<map<string, string>>)
    ensures result.Ok? <==> GoodTags(tags)
    ensures result.Ok? ==> result.value == ReviewTags(tags)
  {
    NoTags(tags);
    hide *;
    var values, keys: set<string> := map[], {};
    for n := 0 to |tags|
      invariant keys == KeysOf(tags[..n]) && GoodTags(tags[..n]) && values == ReviewTags(tags[..n])
    {
      var tag := tags[n];
      NextTag(tags, n);
      if tag.key in keys {
        return Rejected;
      }
      keys := keys + {tag.key};
      if tag.key in REVIEW_TAGS {
        if !IsLabel(tag.value) {
          return Rejected;
        }
        values := values[tag.key := tag.value];
      }
    }
    assert tags[..|tags|] == tags;
    result := Ok(values);
  }

  ghost function KeysOf(tags: seq<Tag>): set<string> {
    set i | 0 <= i < |tags| :: tags[i].key
  }

  lemma NoTags(tags: seq<Tag>)
    ensures KeysOf(tags[..0]) == {} && GoodTags(tags[..0]) && ReviewTags(tags[..0]) == map[]
  {
  }

  lemma AnotherTag(tags: seq<Tag>, tag: Tag)
    ensures KeysOf(tags + [tag]) == KeysOf(tags) + {tag.key}
    ensures GoodTags(tags + [tag]) <==> GoodTags(tags) && tag.key !in KeysOf(tags) && (tag.key in REVIEW_TAGS ==> IsLabel(tag.value))
  {
    hide IsLabel;
    var all := tags + [tag];
    assert all[|tags|] == tag && forall i :: 0 <= i < |tags| ==> all[i] == tags[i];
  }

  lemma AnotherReviewTag(tags: seq<Tag>, tag: Tag)
    ensures ReviewTags(tags + [tag]) ==
            if tag.key in REVIEW_TAGS then ReviewTags(tags)[tag.key := tag.value] else ReviewTags(tags)
  {
    assert (tags + [tag])[..|tags|] == tags;
  }

  lemma FirstTagsGood(tags: seq<Tag>, n: nat)
    requires n <= |tags| && GoodTags(tags)
    ensures GoodTags(tags[..n])
  {
    hide IsLabel;
  }

  lemma NextTag(tags: seq<Tag>, n: nat)
    requires n < |tags|
    ensures KeysOf(tags[..n + 1]) == KeysOf(tags[..n]) + {tags[n].key}
    ensures GoodTags(tags[..n + 1]) <==>
              GoodTags(tags[..n]) && tags[n].key !in KeysOf(tags[..n]) && (tags[n].key in REVIEW_TAGS ==> IsLabel(tags[n].value))
    ensures ReviewTags(tags[..n + 1]) ==
            if tags[n].key in REVIEW_TAGS then ReviewTags(tags[..n])[tags[n].key := tags[n].value] else ReviewTags(tags[..n])
    ensures GoodTags(tags) ==> GoodTags(tags[..n + 1])
  {
    hide *;
    assert tags[..n + 1] == tags[..n] + [tags[n]];
    AnotherTag(tags[..n], tags[n]);
    AnotherReviewTag(tags[..n], tags[n]);
    if GoodTags(tags) { FirstTagsGood(tags, n + 1); }
  }

  method ReadInstance(context: Context, instance: Instance) returns (result: Result<Observation>)
    ensures result.Ok? <==> GoodInstance(context, instance)
    ensures result.Ok? ==> result.value == Claim(context, instance)
  {
    hide IsInstanceId, GoodTags, Arn, SortedSet;
    if !IsInstanceId(instance.instanceId) {
      return Rejected;
    }
    var addresses: set<string> := {};
    if instance.privateIp.Some? {
      if '%' in instance.privateIp.value || !context.isIpv4(instance.privateIp.value) {
        return Rejected;
      }
      addresses := addresses + {instance.privateIp.value};
    }
    if instance.publicIp.Some? {
      if '%' in instance.publicIp.value || !context.isIpv4(instance.publicIp.value) {
        return Rejected;
      }
      addresses := addresses + {instance.publicIp.value};
    }
    if |instance.tags| > MAX_TAGS {
      return Rejected;
    }
    var tags := ReadTags(instance.tags);
    if tags.Rejected? {
      return Rejected;
    }
    assert addresses == Addresses(instance);
    var arn := Arn(context, instance.instanceId);
    result := Ok(Observation(SOURCE, arn, "server", None, SortedSet(addresses),
                             Some("aws"), Some(context.account), Some(arn), tags.value));
  }

  lemma {:induction false} RowsGrow(reservations: seq<Reservation>, n: nat)
    requires n <= |reservations|
    ensures Rows(reservations[..n]) <= Rows(reservations)
    decreases |reservations|
  {
    if n < |reservations| {
      var m := |reservations| - 1;
      assert reservations[..m][..n] == reservations[..n];
      RowsGrow(reservations[..m], n);
    } else {
      assert reservations[..n] == reservations;
    }
  }

  lemma RowsInside(reservations: seq<Reservation>, n: nat, m: nat)
    requires n < |reservations| && m <= |reservations[n].instances|
    ensures Rows(reservations[..n]) + InstanceRows(reservations[n].instances, n + 1)[..m] <= Rows(reservations)
  {
    assert reservations[..n + 1][..n] == reservations[..n];
    RowsGrow(reservations, n + 1);
  }

  lemma PrefixAccepted(context: Context, some: seq<Row>, all: seq<Row>)
    requires some <= all && AcceptedRows(context, all)
    ensures AcceptedRows(context, some)
  {
  }

  /** One more row: `assets`, `references` and `seen` are the projection of `rows`. */
  ghost predicate Read(context: Context, rows: seq<Row>, assets: seq<Observation>, references: seq<SourceRow>, seen: set<string>) {
    && AcceptedRows(context, rows)
    && assets == Claims(context, rows)
    && references == References(context, rows)
    && (forall arn :: arn in seen <==> exists i :: 0 <= i < |rows| && arn == Arn(context, rows[i].instance.instanceId))
  }

  lemma ReadAnother(context: Context, rows: seq<Row>, assets: seq<Observation>, references: seq<SourceRow>, seen: set<string>,
                    row: Row)
    requires Read(context, rows, assets, references, seen)
    ensures var arn := Arn(context, row.instance.instanceId);
            if |rows| >= MAX_INSTANCES || arn in seen || !GoodInstance(context, row.instance)
            then !AcceptedRows(context, rows + [row])
            else Read(context, rows + [row], assets + [Claim(context, row.instance)],
                      references + [SourceRow(arn, row.reservation, row.position)], seen + {arn})
  {
    hide GoodInstance, Arn, Claim;
    var arn := Arn(context, row.instance.instanceId);
    var more := rows + [row];
    if AcceptedRows(context, more) {
      assert more[|rows|] == row;
      forall i | 0 <= i < |rows| ensures arn != Arn(context, rows[i].instance.instanceId) {
        assert more[i] == rows[i];
        if arn == Arn(context, rows[i].instance.instanceId) {
          ArnInjective(context, rows[i].instance.instanceId, row.instance.instanceId);
        }
      }
    }
    if |rows| < MAX_INSTANCES && arn !in seen && GoodInstance(context, row.instance) {
      assert Claims(context, more) == assets + [Claim(context, row.instance)];
      assert References(context, more) == references + [SourceRow(arn, row.reservation, row.position)];
      forall a ensures a in seen + {arn} <==> exists i :: 0 <= i < |more| && a == Arn(context, more[i].instance.instanceId) {
        if a == arn { assert a == Arn(context, more[|rows|].instance.instanceId); }
        if a in seen {
          var i :| 0 <= i < |rows| && a == Arn(context, rows[i].instance.instanceId);
          assert a == Arn(context, more[i].instance.instanceId);
        }
      }
      forall i, j | 0 <= i < j < |more| ensures more[i].instance.instanceId != more[j].instance.instanceId {
        if j == |rows| {
          assert Arn(context, rows[i].instance.instanceId) in seen;
        }
      }
    }
  }

  method ConvertExport(scope: string, context: Context, export_: Export) returns (result: Result<Fixture>)
    ensures result.Ok? <==> AcceptedExport(scope, context, export_)
    ensures result.Ok? ==>
              && result.value.references == References(context, Rows(export_.reservations))
              && result.value.assets == Sort(Claims(context, Rows(export_.reservations)), RecordLe)
  {
    if scope !in ALLOWED_SCOPES || !IsAccount(context.account) || !IsRegion(context.region) {
      return Rejected;
    }
    if export_.nextToken !in {None, Some("")} {
      return Rejected;
    }
    var reservations := export_.reservations;
    if |reservations| > MAX_INSTANCES {
      return Rejected;
    }
    hide AcceptedRows, Rows, Claims, References, IsRegion;
    var assets: seq<Observation>, references: seq<SourceRow>, seen: set<string> := [], [], {};
    NothingRead(context, reservations);
    for n := 0 to |reservations|
      invariant Read(context, Rows(reservations[..n]), assets, references, seen)
      invariant forall i :: 0 <= i < n ==> reservations[i].ownerId == context.account
    {
      if reservations[n].ownerId != context.account {
        return Rejected;
      }
      var instances := reservations[n].instances;
      ghost var before := Rows(reservations[..n]);
      ghost var here := InstanceRows(instances, n + 1);
      assert before + here[..0] == before;
      for m := 0 to |instances|
        invariant Read(context, before + here[..m], assets, references, seen)
      {
        assert here[..m + 1] == here[..m] + [here[m]];
        assert before + here[..m + 1] == before + here[..m] + [here[m]];
        ReadAnother(context, before + here[..m], assets, references, seen, here[m]);
        RowsInside(reservations, n, m + 1);
        ReadLength(context, before + here[..m], assets, references, seen);
        if AcceptedRows(context, Rows(reservations)) {
          PrefixAccepted(context, before + here[..m + 1], Rows(reservations));
        }
        if |assets| >= MAX_INSTANCES {
          return Rejected;
        }
        var arn := Arn(context, instances[m].instanceId);
        if arn in seen {
          return Rejected;
        }
        seen := seen + {arn};
        var asset := ReadInstance(context, instances[m]);
        if asset.Rejected? {
          return Rejected;
        }
        assets := assets + [asset.value];
        references := references + [SourceRow(arn, n + 1, m + 1)];
      }
      assert here[..|instances|] == here;
      NextReservation(reservations, n);
    }
    assert reservations[..|reservations|] == reservations;
    result := Ok(Fixture(Sort(assets, RecordLe), references));
  }

  lemma NothingRead(context: Context, reservations: seq<Reservation>)
    ensures Read(context, Rows(reservations[..0]), [], [], {})
  {
  }

  lemma ReadLength(context: Context, rows: seq<Row>, assets: seq<Observation>, references: seq<SourceRow>, seen: set<string>)
    requires Read(context, rows, assets, references, seen)
    ensures |assets| == |rows|
  {
  }

  lemma NextReservation(reservations: seq<Reservation>, n: nat)
    requires n < |reservations|
    ensures Rows(reservations[..n + 1]) == Rows(reservations[..n]) + InstanceRows(reservations[n].instances, n + 1)
  {
    assert reservations[..n + 1][..n] == reservations[..n];
  }

  // ---- what an accepted export means downstream -------------------------------------------------

  /** The observations of an accepted export, as `convert_export` returns them. */
  function Fixtures(context: Context, reservations: seq<Reservation>): seq<Observation> {
    Sort(Claims(context, Rows(reservations)), RecordLe)
  }

  lemma RecordLeIsTotalPreorder()
    ensures TotalPreorder(RecordLe)
  {
    StrLeIsTotalPreorder();
  }

  lemma ClaimKeys(context: Context, instance: Instance)
    requires IsAccount(context.account)
    ensures var arn := Arn(context, instance.instanceId);
            KeySet(Claim(context, instance)) ==
            {"source:aws-ec2-export:" + arn, "cloud:aws:" + context.account + ":" + arn}
  {
    var o, arn := Claim(context, instance), Arn(context, instance.instanceId);
    assert arn != "" && o.source == SOURCE && o.sourceRecordId == arn && o.hostname.None? by { hide SortedSet, ReviewTags; }
    assert o.cloudProvider == Some("aws") && o.cloudAccount == Some(context.account) && o.cloudResourceId == Some(arn) by {
      hide SortedSet, ReviewTags, Arn;
    }
    hide Claim, Arn, Lower;
    LowerAws();
    AwsKeys(o, context.account, arn);
  }

  lemma AwsKeys(o: Observation, account: string, arn: string)
    requires o.source == SOURCE && o.sourceRecordId == arn && o.hostname.None? && account != "" && arn != ""
    requires o.cloudProvider == Some("aws") && o.cloudAccount == Some(account) && o.cloudResourceId == Some(arn)
    ensures KeySet(o) == {"source:aws-ec2-export:" + arn, "cloud:aws:" + account + ":" + arn}
  {
    LowerAws();
    hide Lower;
    assert "source:" + SOURCE + ":" + arn == "source:aws-ec2-export:" + arn;
    assert "cloud:" + "aws" + ":" + account + ":" + arn == "cloud:aws:" + account + ":" + arn;
  }

  lemma LowerAws()
    ensures Lower("aws") == "aws"
  {
    assert Lower("ws") == "ws" by { assert Lower("s") == "s" by { assert Lower("") == ""; } }
  }

  lemma RegionOnOneLine(region: string)
    requires IsRegion(region)
    ensures '\n' !in region
  {
    var k :| 3 < k < |region| - 1 && IsRegionTail(region, k);
    forall i | 0 <= i < |region| ensures region[i] != '\n' {
      if i < 3 { assert region[i] == region[..3][i]; }
    }
  }

  lemma ArnOnOneLine(context: Context, id: string)
    requires IsRegion(context.region) && IsAccount(context.account) && IsInstanceId(id)
    ensures '\n' !in Arn(context, id)
  {
    RegionOnOneLine(context.region);
    assert '\n' !in id by {
      forall i | 0 <= i < |id| ensures id[i] != '\n' {
        if i < 2 { assert id[i] == id[..2][i]; }
      }
    }
    hide IsRegion, IsInstanceId;
    var arn := Arn(context, id);
    assert '\n' !in "arn:aws:ec2:" && '\n' !in ":" && '\n' !in ":instance/";
  }

  lemma UnbrokenLine(key: string)
    requires '\n' !in key
    ensures !Breaks(key)
  {
  }

  /** A claim of an export has keys of one line each. */
  lemma ClaimKeysUnbroken(context: Context, instance: Instance)
    requires IsRegion(context.region) && IsAccount(context.account) && IsInstanceId(instance.instanceId)
    ensures forall k :: k in KeySet(Claim(context, instance)) ==> !Breaks(k)
  {
    ArnOnOneLine(context, instance.instanceId);
    ClaimKeys(context, instance);
    var arn := Arn(context, instance.instanceId);
    assert '\n' !in "source:aws-ec2-export:" && '\n' !in "cloud:aws:" && '\n' !in context.account && '\n' !in ":";
    hide *;
    assert '\n' !in "source:aws-ec2-export:" + arn;
    assert '\n' !in "cloud:aws:" + context.account + ":" + arn;
    forall k | k in KeySet(Claim(context, instance)) ensures !Breaks(k) { UnbrokenLine(k); }
  }

  /** With an injective digest the asset identifiers of an accepted export never collide. */
  lemma ExportKeysDistinguish(digest: string -> string, context: Context, reservations: seq<Reservation>)
    requires InjectiveDigest(digest) && Accepted(context, reservations)
    ensures Distinguishes(AssetIds(digest), AllKeys(Fixtures(context, reservations)))
  {
    hide *;
    var fixtures := Fixtures(context, reservations);
    FixturesAreClaims(context, reservations);
    SamePermutation(fixtures, Claims(context, Rows(reservations)));
    forall k | k in AllKeys(fixtures) ensures !Breaks(k) {
      var i :| 0 <= i < |fixtures| && k in KeySet(fixtures[i]);
      assert fixtures[i] in fixtures;
      AcceptedClaimUnbroken(context, reservations, fixtures[i], k);
    }
    UnbrokenRowsDistinguish(digest, fixtures);
  }

  lemma AcceptedClaimUnbroken(context: Context, reservations: seq<Reservation>, o: Observation, k: string)
    requires Accepted(context, reservations) && o in Claims(context, Rows(reservations)) && k in KeySet(o)
    ensures !Breaks(k)
  {
    hide KeySet, Claim, Breaks, IsRegion, IsInstanceId, IsAccount, GoodAddress, GoodTags, Rows;
    var claims := Claims(context, Rows(reservations));
    var j :| 0 <= j < |claims| && claims[j] == o;
    ClaimKeysUnbroken(context, Rows(reservations)[j].instance);
  }

  /** Two claims of one export share a key only when they name the same instance. */
  lemma ClaimsShareNothing(context: Context, a: Instance, b: Instance)
    requires IsAccount(context.account)
    requires Share(Claim(context, a), Claim(context, b))
    ensures a.instanceId == b.instanceId
  {
    hide Claim, KeySet, Arn;
    ClaimKeys(context, a);
    ClaimKeys(context, b);
    var x, y := Arn(context, a.instanceId), Arn(context, b.instanceId);
    var cloud := "cloud:aws:" + context.account + ":";
    var k :| k in KeySet(Claim(context, a)) * KeySet(Claim(context, b));
    assert ("source:aws-ec2-export:" + x)[0] == 's' && ("source:aws-ec2-export:" + y)[0] == 's';
    assert (cloud + x)[0] == 'c' && (cloud + y)[0] == 'c';
    if k[0] == 's' {
      assert x == ("source:aws-ec2-export:" + x)[22..] && y == ("source:aws-ec2-export:" + y)[22..];
    } else {
      assert x == (cloud + x)[|cloud|..] && y == (cloud + y)[|cloud|..];
    }
    ArnInjective(context, a.instanceId, b.instanceId);
  }

  lemma ClaimsDistinct(context: Context, rows: seq<Row>)
    requires AcceptedRows(context, rows)
    ensures DistinctRows(Claims(context, rows))
  {
    hide GoodInstance, Arn;
    forall i, j | 0 <= i < j < |rows| ensures RowName(Claims(context, rows)[i]) != RowName(Claims(context, rows)[j]) {
      if Arn(context, rows[i].instance.instanceId) == Arn(context, rows[j].instance.instanceId) {
        ArnInjective(context, rows[i].instance.instanceId, rows[j].instance.instanceId);
      }
    }
  }

  lemma FixturesAreClaims(context: Context, reservations: seq<Reservation>)
    requires Accepted(context, reservations)
    ensures multiset(Fixtures(context, reservations)) == multiset(Claims(context, Rows(reservations)))
    ensures |Fixtures(context, reservations)| == |Rows(reservations)|
    ensures DistinctRows(Fixtures(context, reservations))
    ensures Sorted(Fixtures(context, reservations), RecordLe)
  {
    hide AcceptedRows, Claims, Rows;
    var claims, fixtures := Claims(context, Rows(reservations)), Fixtures(context, reservations);
    RecordLeIsTotalPreorder();
    SortPermutes(claims, RecordLe);
    SortSorts(claims, RecordLe);
    ClaimsDistinct(context, Rows(reservations));
    DistinctRowsMeans(claims);
    NoDupPermutation(claims, fixtures);
    DistinctRowsMeans(fixtures);
  }

  /** Correlating an accepted export never merges: one asset per instance, each holding
      exactly that instance's claim. */
  lemma OneAssetPerInstance(context: Context, reservations: seq<Reservation>, assetId: seq<string> -> string)
    requires Accepted(context, reservations)
    ensures var assets := Correlate(Fixtures(context, reservations), assetId);
            && |assets| == |Rows(reservations)|
            && forall a :: a in assets <==>
                 exists o :: o in Claims(context, Rows(reservations)) && a == Consolidate([o], assetId)
  {
    FixturesAreClaims(context, reservations);
    hide *;
    var claims, fixtures := Claims(context, Rows(reservations)), Fixtures(context, reservations);
    SamePermutation(claims, fixtures);
    forall x, y | x in fixtures && y in fixtures && x != y ensures !Share(x, y) {
      AcceptedShareNothing(context, reservations, x, y);
    }
    UnsharedKeysStayApart(fixtures, assetId);
  }

  lemma AcceptedShareNothing(context: Context, reservations: seq<Reservation>, x: Observation, y: Observation)
    requires Accepted(context, reservations)
    requires x in Claims(context, Rows(reservations)) && y in Claims(context, Rows(reservations)) && x != y
    ensures !Share(x, y)
  {
    hide Claim, Share, GoodInstance;
    var claims := Claims(context, Rows(reservations));
    var i :| 0 <= i < |claims| && claims[i] == x;
    var j :| 0 <= j < |claims| && claims[j] == y;
    if Share(x, y) {
      ClaimsShareNothing(context, Rows(reservations)[i].instance, Rows(reservations)[j].instance);
    }
  }

  /** Every instance keeps its own row reference, and no other row claims its record id. */
  lemma OwnRowReference(context: Context, reservations: seq<Reservation>, i: nat)
    requires Accepted(context, reservations) && i < |Rows(reservations)|
    ensures var rows := Rows(reservations); var references := References(context, rows);
            && references[i].sourceRecordId == Claims(context, rows)[i].sourceRecordId
            && references[i] == SourceRow(Arn(context, rows[i].instance.instanceId), rows[i].reservation, rows[i].position)
            && forall j :: 0 <= j < |references| && references[j].sourceRecordId == references[i].sourceRecordId ==> j == i
  {
    hide GoodInstance, Arn;
    var rows := Rows(reservations);
    forall j | 0 <= j < |rows| && References(context, rows)[j].sourceRecordId == References(context, rows)[i].sourceRecordId
      ensures j == i
    {
      ArnInjective(context, rows[i].instance.instanceId, rows[j].instance.instanceId);
    }
  }

  function Instances(rows: seq<Row>): (r: seq<Instance>)
    ensures |r| == |rows|
    ensures forall i :: 0 <= i < |r| ==> r[i] == rows[i].instance
  {
    seq(|rows|, i requires 0 <= i < |rows| => rows[i].instance)
  }

  lemma ClaimsMultiset(context: Context, rows: seq<Row>, others: seq<Row>)
    requires multiset(Instances(rows)) == multiset(Instances(others))
    ensures multiset(Claims(context, rows)) == multiset(Claims(context, others))
  {
    hide Claim;
    var f := (instance: Instance) => Claim(context, instance);
    assert Claims(context, rows) == Map(Instances(rows), f);
    assert Claims(context, others) == Map(Instances(others), f);
    MapPermutes(Instances(rows), Instances(others), f);
  }

  /** Reordering or regrouping the instances of an export changes only row references:
      acceptance and every projected observation stay the same. */
  lemma InstanceOrderIrrelevant(context: Context, a: seq<Reservation>, b: seq<Reservation>)
    requires Accepted(context, a)
    requires multiset(Instances(Rows(a))) == multiset(Instances(Rows(b)))
    requires |b| <= MAX_INSTANCES && forall i :: 0 <= i < |b| ==> b[i].ownerId == context.account
    ensures Accepted(context, b)
    ensures Fixtures(context, b) == Fixtures(context, a)
  {
    AcceptedAnyOrder(context, Rows(a), Rows(b));
    hide AcceptedRows, Claims, Rows, Instances;
    ClaimsMultiset(context, Rows(a), Rows(b));
    FixturesAreClaims(context, a);
    FixturesAreClaims(context, b);
    var fixtures := Fixtures(context, a);
    DistinctRowsMeans(fixtures);
    SameSource(context, Rows(a));
    SamePermutation(fixtures, Claims(context, Rows(a)));
    forall x, y | x in fixtures && y in fixtures && RecordLe(x, y) && RecordLe(y, x) ensures x == y {
      StrLeAntisymmetric(x.sourceRecordId, y.sourceRecordId);
      assert RowName(x) == RowName(y);
    }
    SortedUnique(fixtures, Fixtures(context, b), RecordLe);
  }

  lemma SameSource(context: Context, rows: seq<Row>)
    ensures forall o :: o in Claims(context, rows) ==> o.source == SOURCE
  {
  }

  lemma AcceptedAnyOrder(context: Context, rows: seq<Row>, others: seq<Row>)
    requires AcceptedRows(context, rows)
    requires multiset(Instances(rows)) == multiset(Instances(others))
    ensures AcceptedRows(context, others)
  {
    hide GoodInstance;
    var x, y := Instances(rows), Instances(others);
    SamePermutation(x, y);
    assert NoDup(x);
    NoDupPermutation(x, y);
    forall i | 0 <= i < |others| ensures GoodInstance(context, others[i].instance) {
      assert y[i] in x;
      var m :| 0 <= m < |x| && x[m] == y[i];
    }
    forall i, j | 0 <= i < j < |others| ensures others[i].instance.instanceId != others[j].instance.instanceId {
      assert y[i] in x && y[j] in x;
      var m :| 0 <= m < |x| && x[m] == y[i];
      var n :| 0 <= n < |x| && x[n] == y[j];
      assert m != n;
    }
  }
}
