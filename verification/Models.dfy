/** Source observations and the strong identity keys they claim. */
module Models {
  import opened Ordering
  import opened Texts

  /** One source's claim about an asset; every field is already normalised text. */
  datatype Observation = Observation(
    source: string,
    sourceRecordId: string,
    kind: string,
    hostname: Option<string>,
    ipAddresses: seq<string>,
    cloudProvider: Option<string>,
    cloudAccount: Option<string>,
    cloudResourceId: Option<string>,
    tags: map<string, string>)

  function LowerChar(c: char): char {
    if 'A' <= c <= 'Z' then (c as int + 32) as char else c
  }

  function Lower(s: string): (r: string)
    ensures |r| == |s|
  {
    if s == [] then [] else [LowerChar(s[0])] + Lower(s[1..])
  }

  predicate NoCapitals(s: string) {
    forall i :: 0 <= i < |s| ==> !('A' <= s[i] <= 'Z')
  }

  /** Lower-casing leaves exactly the texts without capital letters alone. */
  lemma {:induction false} LowerMeans(s: string)
    ensures Lower(s) == s <==> NoCapitals(s)
  {
    if s != [] {
      var first, rest := s[0], s[1..];
      LowerMeans(rest);
      assert s == [first] + rest && Lower(s) == [LowerChar(first)] + Lower(rest);
      assert Lower(s)[0] == LowerChar(first) && Lower(s)[1..] == Lower(rest);
      assert NoCapitals(s) <==> !('A' <= first <= 'Z') && NoCapitals(rest) by {
        assert forall i :: 1 <= i < |s| ==> s[i] == rest[i - 1];
        assert forall i :: 0 <= i < |rest| ==> rest[i] == s[i + 1];
      }
    }
  }

  /** `self.cloud_provider` and its neighbours count only when they are non-empty text. */
  predicate Present(value: Option<string>) {
    value.Some? && value.value != ""
  }

  function SourceKey(o: Observation): string {
    "source:" + o.source + ":" + o.sourceRecordId
  }

  function FqdnKeys(o: Observation): set<string> {
    if Present(o.hostname) && '.' in o.hostname.value then {"fqdn:" + o.hostname.value} else {}
  }

  function CloudKeys(o: Observation): set<string> {
    if Present(o.cloudProvider) && Present(o.cloudAccount) && Present(o.cloudResourceId) then
      {"cloud:" + Lower(o.cloudProvider.value) + ":" + o.cloudAccount.value + ":" + o.cloudResourceId.value}
    else {}
  }

  /** The strong keys of an observation. Addresses are evidence, not identity. */
  function KeySet(o: Observation): (r: set<string>)
    ensures SourceKey(o) in r
  {
    {SourceKey(o)} + FqdnKeys(o) + CloudKeys(o)
  }

  function IdentityKeys(o: Observation): seq<string> {
    SortedSet(KeySet(o))
  }

  // ---- what `from_dict` accepts ----------------------------------------------------------

  predicate SourceText(text: string) {
    RequiredText(text) && Lower(text) == text
  }

  predicate HostText(text: string) {
    && text != "" && ' ' !in text && Lower(text) == text
    && !IsSpace(text[0]) && text[0] != '.' && text[|text| - 1] != '.'
  }

  predicate OptionalText(value: Option<string>) {
    value.Some? ==> RequiredText(value.value)
  }

  /** The texts of an observation are as validation leaves them. */
  predicate WellFormed(o: Observation) {
    && SourceText(o.source) && RequiredText(o.sourceRecordId) && SourceText(o.kind)
    && (o.hostname.Some? ==> HostText(o.hostname.value))
    && OptionalText(o.cloudProvider) && OptionalText(o.cloudAccount) && OptionalText(o.cloudResourceId)
  }

  /** The (source, source_record_id) pair that names a source row. */
  function RowName(o: Observation): (string, string) {
    (o.source, o.sourceRecordId)
  }

  ghost predicate DistinctRows(items: seq<Observation>) {
    forall i, j :: 0 <= i < j < |items| ==> RowName(items[i]) != RowName(items[j])
  }
}
