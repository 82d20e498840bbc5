/** JSON objects as dictionaries, and the field-by-field difference that both comparisons report. */
module JsonFields {
  import opened Ordering

  /** JSON values; `Other` is the canonical text of any value the model does not look into. */
  datatype Json =
    | Null
    | Text(text: string)
    | TextList(items: seq<string>)
    | TextMap(entries: map<string, string>)
    | Other(canonical: string)

  type Fields = map<string, Json>

  /** `fields.get(name)`: an absent field reads as null. */
  function Get(fields: Fields, name: string): Json {
    if name in fields then fields[name] else Null
  }

  function ChangedFields(left: Fields, right: Fields): seq<string> {
    SortedSet(set f | f in left.Keys + right.Keys && Get(left, f) != Get(right, f))
  }

  lemma ChangedFieldsMeans(left: Fields, right: Fields)
    ensures forall f :: f in ChangedFields(left, right) <==> Get(left, f) != Get(right, f)
  {
    var changed := set f | f in left.Keys + right.Keys && Get(left, f) != Get(right, f);
    forall f ensures f in ChangedFields(left, right) <==> Get(left, f) != Get(right, f) {
      assert f in SortedSet(changed) <==> f in changed;
    }
  }

  /** No field is reported exactly when every field reads the same on both sides. */
  lemma NoChangedFields(left: Fields, right: Fields)
    ensures ChangedFields(left, right) == [] <==> forall f :: Get(left, f) == Get(right, f)
  {
    ChangedFieldsMeans(left, right);
    hide ChangedFields, Get;
    var changed := ChangedFields(left, right);
    if changed != [] {
      assert changed[0] in changed;
    }
  }

  /** The order of the two sides does not matter. */
  lemma ChangedFieldsSymmetric(left: Fields, right: Fields)
    ensures ChangedFields(left, right) == ChangedFields(right, left)
  {
    assert (set f | f in left.Keys + right.Keys && Get(left, f) != Get(right, f)) ==
           (set f | f in right.Keys + left.Keys && Get(right, f) != Get(left, f));
  }

  /** The entries of `m` named by `ids`, in that order. */
  function Pick<V>(m: map<string, V>, ids: seq<string>): (r: seq<V>)
    requires forall id :: id in ids ==> id in m
    ensures |r| == |ids|
    ensures forall i :: 0 <= i < |ids| ==> r[i] == m[ids[i]]
  {
    seq(|ids|, i requires 0 <= i < |ids| => m[ids[i]])
  }
}
