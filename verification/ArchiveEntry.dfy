/** Archive entries: bytes as Base64 text (section 4 of RFC 4648) with their length and digest,
    and the decoder that accepts exactly one entry per byte string.
 */
module ArchiveEntry {
  import opened Ordering

  type Byte = b: int | 0 <= b < 256
  type Sextet = v: int | 0 <= v < 64

  datatype Entry = Entry(text: string, byteCount: int, sha256: string)

  // ---- the alphabet ------------------------------------------------------------------------

  function ToChar(v: Sextet): (c: char)
    ensures FromChar(c) == Some(v) && c != '='
  {
    if v < 26 then (v + 65) as char
    else if v < 52 then (v - 26 + 97) as char
    else if v < 62 then (v - 52 + 48) as char
    else if v == 62 then '+' else '/'
  }

  function FromChar(c: char): Option<Sextet> {
    if 'A' <= c <= 'Z' then Some(c as int - 65)
    else if 'a' <= c <= 'z' then Some(c as int - 97 + 26)
    else if '0' <= c <= '9' then Some(c as int - 48 + 52)
    else if c == '+' then Some(62)
    else if c == '/' then Some(63)
    else None
  }

  // ---- Base64 ------------------------------------------------------------------------------

  function Encode(d: seq<Byte>): string {
    if |d| == 0 then ""
    else if |d| == 1 then [ToChar(Top(d[0])), ToChar(High(d[0], 0)), '=', '=']
    else if |d| == 2 then [ToChar(Top(d[0])), ToChar(High(d[0], d[1])), ToChar(Low(d[1], 0)), '=']
    else [ToChar(Top(d[0])), ToChar(High(d[0], d[1])), ToChar(Low(d[1], d[2])), ToChar(Bottom(d[2]))] + Encode(d[3..])
  }

  function Top(x: Byte): Sextet { x / 4 }
  function High(x: Byte, y: Byte): Sextet { x % 4 * 16 + y / 16 }
  function Low(y: Byte, z: Byte): Sextet { y % 16 * 4 + z / 64 }
  function Bottom(z: Byte): Sextet { z % 64 }

  /** The strict library decoder: only the alphabet, padding only at the end, unused bits of the
      last character ignored. */
  function Decode(s: string): Option<seq<Byte>> {
    if |s| == 0 then Some([])
    else if |s| < 4 then None
    else
      var a, b, c, e := FromChar(s[0]), FromChar(s[1]), FromChar(s[2]), FromChar(s[3]);
      if a.None? || b.None? then None
      else if |s| == 4 && s[3] == '=' then
        if s[2] == '=' then Some([First(a.value, b.value)])
        else if c.None? then None
        else Some([First(a.value, b.value), Second(b.value, c.value)])
      else if c.None? || e.None? then None
      else
        var rest := Decode(s[4..]);
        if rest.None? then None
        else Some([First(a.value, b.value), Second(b.value, c.value), Third(c.value, e.value)] + rest.value)
  }

  function First(a: Sextet, b: Sextet): Byte { a * 4 + b / 16 }
  function Second(b: Sextet, c: Sextet): Byte { b % 16 * 16 + c / 4 }
  function Third(c: Sextet, e: Sextet): Byte { c % 4 * 64 + e }

  /** Three bytes survive the split into four sextets. */
  lemma Regroup(x: Byte, y: Byte, z: Byte)
    ensures First(Top(x), High(x, y)) == x && Second(High(x, y), Low(y, z)) == y && Third(Low(y, z), Bottom(z)) == z
  {
    assert High(x, y) / 16 == x % 4 && High(x, y) % 16 == y / 16;
    assert Low(y, z) / 4 == y % 16 && Low(y, z) % 4 == z / 64;
  }

  lemma RegroupLast(x: Byte, y: Byte)
    ensures First(Top(x), High(x, y)) == x
  {
    assert High(x, y) / 16 == x % 4;
  }

  lemma {:induction false} DecodeEncode(d: seq<Byte>)
    ensures Decode(Encode(d)) == Some(d)
  {
    if |d| >= 3 {
      DecodeEncode(d[3..]);
      DecodeGroup(d);
    } else {
      DecodeRest(d);
    }
  }

  lemma DecodeGroup(d: seq<Byte>)
    requires |d| >= 3 && Decode(Encode(d[3..])) == Some(d[3..])
    ensures Decode(Encode(d)) == Some(d)
  {
    Regroup(d[0], d[1], d[2]);
    hide First, Second, Third, Top, High, Low, Bottom, ToChar, FromChar, Decode, Encode;
    DecodeFour(Top(d[0]), High(d[0], d[1]), Low(d[1], d[2]), Bottom(d[2]), Encode(d[3..]));
    EncodeUnfolds(d);
    ByteGroup(d);
  }

  lemma ByteGroup(d: seq<Byte>)
    requires |d| >= 3
    ensures d == [d[0], d[1], d[2]] + d[3..]
  {
  }

  lemma EncodeUnfolds(d: seq<Byte>)
    requires |d| >= 3
    ensures Encode(d) == [ToChar(Top(d[0])), ToChar(High(d[0], d[1])), ToChar(Low(d[1], d[2])), ToChar(Bottom(d[2]))] + Encode(d[3..])
  {
    hide Top, High, Low, Bottom, ToChar;
  }

  /** Four characters of the alphabet before a text add three bytes before its own. */
  lemma DecodeFour(a: Sextet, b: Sextet, c: Sextet, e: Sextet, rest: string)
    requires Decode(rest).Some?
    ensures Decode([ToChar(a), ToChar(b), ToChar(c), ToChar(e)] + rest) == Some([First(a, b), Second(b, c), Third(c, e)] + Decode(rest).value)
  {
    hide First, Second, Third, ToChar, FromChar;
    var s := [ToChar(a), ToChar(b), ToChar(c), ToChar(e)] + rest;
    assert s[4..] == rest;
    assert s[0] == ToChar(a) && s[1] == ToChar(b) && s[2] == ToChar(c) && s[3] == ToChar(e);
  }

  lemma DecodeRest(d: seq<Byte>)
    requires |d| < 3
    ensures Decode(Encode(d)) == Some(d)
  {
    DecodeNothing();
    hide First, Second, Third, Top, High, Low, Bottom, ToChar, FromChar, Encode, Decode;
    if |d| == 2 {
      DecodePair(d[0], d[1]);
      assert d == [d[0], d[1]];
    } else if |d| == 1 {
      DecodeByte(d[0]);
      assert d == [d[0]];
    } else {
      assert d == [];
    }
  }

  lemma DecodeNothing()
    ensures Decode(Encode([])) == Some([])
  {
  }

  lemma DecodePair(x: Byte, y: Byte)
    ensures Decode(Encode([x, y])) == Some([x, y])
  {
    Regroup(x, y, 0);
    DecodeThree(Top(x), High(x, y), Low(y, 0));
    hide First, Second, Third, Top, High, Low, Bottom, ToChar, FromChar, Decode;
    assert Encode([x, y]) == [ToChar(Top(x)), ToChar(High(x, y)), ToChar(Low(y, 0)), '='];
  }

  lemma DecodeByte(x: Byte)
    ensures Decode(Encode([x])) == Some([x])
  {
    RegroupLast(x, 0);
    DecodeTwo(Top(x), High(x, 0));
    hide First, Second, Third, Top, High, Low, Bottom, ToChar, FromChar, Decode;
    assert Encode([x]) == [ToChar(Top(x)), ToChar(High(x, 0)), '=', '='];
  }

  lemma DecodeThree(a: Sextet, b: Sextet, c: Sextet)
    ensures Decode([ToChar(a), ToChar(b), ToChar(c), '=']) == Some([First(a, b), Second(b, c)])
  {
    hide First, Second, Third, ToChar, FromChar;
  }

  lemma DecodeTwo(a: Sextet, b: Sextet)
    ensures Decode([ToChar(a), ToChar(b), '=', '=']) == Some([First(a, b)])
  {
    hide First, Second, Third, ToChar, FromChar;
  }

  lemma {:induction false} EncodedLength(d: seq<Byte>)
    ensures |Encode(d)| == 4 * ((|d| + 2) / 3)
  {
    if |d| >= 3 {
      EncodedLength(d[3..]);
      EncodeUnfolds(d);
      GroupCount(|d|);
    }
  }

  lemma GroupCount(n: nat)
    requires n >= 3
    ensures (n + 2) / 3 == (n - 3 + 2) / 3 + 1
  {
  }

  // ---- entries --------------------------------------------------------------------------------

  function EntryOf(sha: seq<Byte> -> string, d: seq<Byte>): Entry {
    Entry(Encode(d), |d|, sha(d))
  }

  /** `_decode`: the bytes of a bounded entry, or nothing. */
  function DecodeEntry(sha: seq<Byte> -> string, e: Entry, limit: nat): Option<seq<Byte>> {
    if !(0 <= e.byteCount <= limit) || |e.text| > 4 * ((limit + 2) / 3) then None
    else
      var d := Decode(e.text);
      if d.None? || e != EntryOf(sha, d.value) || |d.value| > limit then None else d
  }

  /** An entry decodes to `d` exactly when it is the entry of `d` and `d` fits the limit: in-bound
      entries always decode, and each byte string has one entry. */
  lemma DecodesExactlyItsEntry(sha: seq<Byte> -> string, e: Entry, limit: nat, d: seq<Byte>)
    ensures DecodeEntry(sha, e, limit) == Some(d) <==> e == EntryOf(sha, d) && |d| <= limit
  {
    DecodeEncode(d);
    EncodedLength(d);
    if |d| <= limit { LengthGrows(|d|, limit); }
    hide Encode, Decode;
  }

  lemma LengthGrows(n: nat, m: nat)
    requires n <= m
    ensures 4 * ((n + 2) / 3) <= 4 * ((m + 2) / 3)
  {
  }

  /** The length guard never turns away the entry of bytes within the limit. */
  lemma LengthGuardAdmits(d: seq<Byte>, limit: nat)
    ensures |d| <= limit ==> |Encode(d)| <= 4 * ((limit + 2) / 3)
    ensures |Encode(d)| <= 4 * ((limit + 2) / 3) ==> |d| <= (limit + 2) / 3 * 3
  {
    EncodedLength(d);
  }

  // ---- loose texts ----------------------------------------------------------------------------

  /** The bits of `v` that a group keeps when `unused` values end it. */
  function Kept(v: Sextet, unused: nat): Sextet
    requires unused > 0
  {
    v - v % unused
  }

  /** How many values the unused bits of the last character before the padding can take. */
  function UnusedValues(s: string): nat
    requires |s| >= 4
  {
    if s[|s| - 1] != '=' then 1 else if s[|s| - 2] == '=' then 16 else 4
  }

  /** The index of the last character before the padding. */
  function LastIndex(s: string): nat
    requires |s| >= 4
  {
    if s[|s| - 1] != '=' then |s| - 1 else if s[|s| - 2] == '=' then |s| - 3 else |s| - 2
  }

  /** The last character before the padding has unused bits that are not zero. */
  predicate Loose(s: string) {
    |s| >= 4 && FromChar(s[LastIndex(s)]).Some? && FromChar(s[LastIndex(s)]).value % UnusedValues(s) != 0
  }

  /** `s` with those bits cleared. */
  function Cleared(s: string): string {
    if Loose(s) then s[LastIndex(s) := ToChar(Kept(FromChar(s[LastIndex(s)]).value, UnusedValues(s)))] else s
  }

  lemma CharBack(c: char)
    ensures FromChar(c).Some? ==> ToChar(FromChar(c).value) == c
  {
  }

  /** Three bytes of a group split into the sextets they were joined from. */
  lemma SplitGroup(a: Sextet, b: Sextet, c: Sextet, e: Sextet)
    ensures Top(First(a, b)) == a && High(First(a, b), Second(b, c)) == b
    ensures Low(Second(b, c), Third(c, e)) == c && Bottom(Third(c, e)) == e
  {
    assert First(a, b) / 4 == a && First(a, b) % 4 == b / 16;
    assert Second(b, c) / 16 == b % 16 && Second(b, c) % 16 == c / 4;
    assert Third(c, e) / 64 == c % 4 && Third(c, e) % 64 == e;
  }

  /** A byte before padding forgets the unused bits. */
  lemma SplitLast(a: Sextet, b: Sextet, zero: Byte)
    requires zero == 0
    ensures High(First(a, b), zero) == Kept(b, 16) && Low(Second(a, b), zero) == Kept(b, 4)
  {
    FirstRest(a, b);
    SecondRest(a, b);
    hide First, Second;
  }

  lemma FirstRest(a: Sextet, b: Sextet)
    ensures First(a, b) % 4 == b / 16
  {
  }

  lemma SecondRest(a: Sextet, b: Sextet)
    ensures Second(a, b) % 16 == b / 4
  {
  }

  lemma SplitPair(a: Sextet, b: Sextet, c: Sextet)
    ensures Top(First(a, b)) == a && High(First(a, b), Second(b, c)) == b
  {
    assert First(a, b) / 4 == a && First(a, b) % 4 == b / 16;
    assert Second(b, c) / 16 == b % 16;
  }

  lemma EncodeByte(x: Byte, zero: Byte)
    requires zero == 0
    ensures Encode([x]) == [ToChar(Top(x)), ToChar(High(x, zero)), '=', '=']
  {
    hide Top, High, ToChar;
  }

  lemma EncodePair(x: Byte, y: Byte, zero: Byte)
    requires zero == 0
    ensures Encode([x, y]) == [ToChar(Top(x)), ToChar(High(x, y)), ToChar(Low(y, zero)), '=']
  {
    hide Top, High, Low, ToChar;
  }

  lemma TwoEncodes(a: Sextet, b: Sextet, zero: Byte)
    requires zero == 0
    ensures Encode([First(a, b)]) == [ToChar(a), ToChar(Kept(b, 16)), '=', '=']
  {
    hide *;
    SplitPair(a, b, b);
    SplitLast(a, b, zero);
    EncodeByte(First(a, b), zero);
  }

  lemma ThreeEncode(a: Sextet, b: Sextet, c: Sextet, zero: Byte)
    requires zero == 0
    ensures Encode([First(a, b), Second(b, c)]) == [ToChar(a), ToChar(b), ToChar(Kept(c, 4)), '=']
  {
    hide *;
    SplitPair(a, b, c);
    SplitLast(b, c, zero);
    EncodePair(First(a, b), Second(b, c), zero);
  }

  lemma FourEncode(a: Sextet, b: Sextet, c: Sextet, e: Sextet, rest: seq<Byte>)
    ensures Encode([First(a, b), Second(b, c), Third(c, e)] + rest) == [ToChar(a), ToChar(b), ToChar(c), ToChar(e)] + Encode(rest)
  {
    SplitGroup(a, b, c, e);
    hide First, Second, Third, Top, High, Low, Bottom, ToChar, Encode;
    var d := [First(a, b), Second(b, c), Third(c, e)] + rest;
    EncodeUnfolds(d);
    assert d[3..] == rest && d[0] == First(a, b) && d[1] == Second(b, c) && d[2] == Third(c, e);
  }

  /** What a decoded text encodes to: the text with the unused bits of its last character cleared. */
  lemma {:induction false} DecodedEncodes(s: string)
    requires Decode(s).Some?
    ensures Encode(Decode(s).value) == Cleared(s)
  {
    if |s| > 0 {
      if |s| == 4 && s[3] == '=' {
        PaddedEncodes(s, 0);
      } else {
        DecodedEncodes(s[4..]);
        GroupEncodes(s);
      }
    }
  }

  lemma PaddedEncodes(s: string, zero: Byte)
    requires |s| == 4 && s[3] == '=' && Decode(s).Some? && zero == 0
    ensures Encode(Decode(s).value) == Cleared(s)
  {
    var a, b, c := FromChar(s[0]), FromChar(s[1]), FromChar(s[2]);
    CharBack(s[0]);
    CharBack(s[1]);
    CharBack(s[2]);
    hide First, Second, Third, ToChar, FromChar, Encode, Cleared, Kept;
    if s[2] == '=' {
      assert LastIndex(s) == 1 && UnusedValues(s) == 16;
      TwoEncodes(a.value, b.value, zero);
      ClearedAt(s, 1, b.value, 16);
      assert s[1 := ToChar(Kept(b.value, 16))] == [s[0], ToChar(Kept(b.value, 16)), '=', '='];
    } else {
      assert LastIndex(s) == 2 && UnusedValues(s) == 4;
      ThreeEncode(a.value, b.value, c.value, zero);
      ClearedAt(s, 2, c.value, 4);
      assert s[2 := ToChar(Kept(c.value, 4))] == [s[0], s[1], ToChar(Kept(c.value, 4)), '='];
    }
  }

  lemma ClearedAt(s: string, i: nat, v: Sextet, unused: nat)
    requires |s| >= 4 && LastIndex(s) == i < |s| && UnusedValues(s) == unused && FromChar(s[i]) == Some(v)
    ensures Cleared(s) == s[i := ToChar(Kept(v, unused))]
  {
    CharBack(s[i]);
    hide ToChar, FromChar;
  }

  lemma DecodeUnfolds(s: string)
    requires |s| >= 4 && !(|s| == 4 && s[3] == '=') && Decode(s).Some?
    ensures FromChar(s[0]).Some? && FromChar(s[1]).Some? && FromChar(s[2]).Some? && FromChar(s[3]).Some? && Decode(s[4..]).Some?
    ensures var a, b, c, e := FromChar(s[0]).value, FromChar(s[1]).value, FromChar(s[2]).value, FromChar(s[3]).value;
            Decode(s).value == [First(a, b), Second(b, c), Third(c, e)] + Decode(s[4..]).value
  {
    hide First, Second, Third, FromChar;
  }

  lemma GroupEncodes(s: string)
    requires |s| >= 4 && !(|s| == 4 && s[3] == '=') && Decode(s).Some?
    requires Decode(s[4..]).Some? ==> Encode(Decode(s[4..]).value) == Cleared(s[4..])
    ensures Encode(Decode(s).value) == Cleared(s)
  {
    hide *;
    DecodeUnfolds(s);
    var a, b, c, e := FromChar(s[0]), FromChar(s[1]), FromChar(s[2]), FromChar(s[3]);
    CharBack(s[0]);
    CharBack(s[1]);
    CharBack(s[2]);
    CharBack(s[3]);
    FourEncode(a.value, b.value, c.value, e.value, Decode(s[4..]).value);
    ClearedGroup(s);
    assert s[..4] == [s[0], s[1], s[2], s[3]];
  }

  lemma ClearedGroup(s: string)
    requires |s| >= 4 && FromChar(s[3]).Some? && Decode(s[4..]).Some?
    ensures Cleared(s) == s[..4] + Cleared(s[4..])
  {
    DecodedLength(s[4..]);
    assert FromChar('=').None?;
    hide ToChar, FromChar, Decode, Kept;
    var rest := s[4..];
    if rest == "" {
      assert s[..4] == s && UnusedValues(s) == 1;
    } else {
      assert LastIndex(s) == 4 + LastIndex(rest) && UnusedValues(s) == UnusedValues(rest);
      assert s[LastIndex(s)] == rest[LastIndex(rest)];
      assert s == s[..4] + rest;
    }
  }

  lemma DecodedLength(s: string)
    requires Decode(s).Some?
    ensures s == "" || |s| >= 4
  {
    hide FromChar, First, Second, Third;
  }

  /** The texts that decode although they encode nothing are exactly the loose ones, and clearing
      their unused bits gives the encoding of what they decode to. */
  lemma LooseTexts(s: string)
    requires Decode(s).Some?
    ensures Encode(Decode(s).value) == Cleared(s) && Decode(Cleared(s)) == Decode(s)
    ensures (exists d :: s == Encode(d)) <==> !Loose(s)
  {
    DecodedEncodes(s);
    DecodeEncode(Decode(s).value);
    ClearedMeans(s);
    hide Encode, Decode, Cleared, Loose;
    if d :| s == Encode(d) {
      DecodeEncode(d);
    }
  }

  lemma ClearedMeans(s: string)
    ensures Cleared(s) == s <==> !Loose(s)
  {
    hide ToChar, FromChar;
    if Loose(s) {
      var i := LastIndex(s);
      assert FromChar(Cleared(s)[i]) != FromChar(s[i]);
    }
  }

  /** The comparison with the re-encoded entry refuses every loose text: entries are unique. */
  lemma LooseTextRejected(sha: seq<Byte> -> string, e: Entry, limit: nat)
    requires Loose(e.text)
    ensures DecodeEntry(sha, e, limit).None?
    ensures Loose("QR==") && Decode("QR==") == Decode("QQ==") == Some([65])
  {
    assert Decode("QR==") == Some([65]) && Decode("QQ==") == Some([65]);
    hide Encode, Decode, Loose;
    if Decode(e.text).Some? {
      LooseTexts(e.text);
      assert e.text != Encode(Decode(e.text).value);
    }
  }
}
