/** Mutable items of BEP 44 (rust/mainline/src/common/mutable.rs): the signed encoding and the checks on
    received items. Hashing and signature verification are parameters. */
module Mutable {
  import opened Bytes
  import opened Ids
  import opened Messages

  datatype MutableItem = MutableItem(target: Id, key: Key32, seqNo: i64, value: seq<byte>, signature: Sig64,
      salt: Option<seq<byte>>)

  datatype MutableError = InvalidMutableSignature | InvalidMutablePublicKey

  datatype Checked = Accepted(item: MutableItem) | Refused(error: MutableError)

  // === The signed encoding ===

  const COLON: byte := 58
  const MINUS: byte := 45
  const LETTER_E: byte := 101
  const SALT_KEY: seq<byte> := [52, 58, 115, 97, 108, 116]  // 4:salt
  const SEQ_KEY: seq<byte> := [51, 58, 115, 101, 113, 105]  // 3:seqi
  const VALUE_KEY: seq<byte> := [49, 58, 118]               // 1:v

  function Digits(n: nat): (r: seq<byte>)
    ensures |r| > 0
    ensures forall i :: 0 <= i < |r| ==> 48 <= r[i] <= 57
  {
    if n < 10 then [48 + n] else Digits(n / 10) + [48 + n % 10]
  }

  function Decimal(n: int): (r: seq<byte>)
    ensures |r| > 0
    ensures forall i :: 0 <= i < |r| ==> r[i] == MINUS || 48 <= r[i] <= 57
  {
    if n < 0 then [MINUS] + Digits(-n) else Digits(n)
  }

  function Prefixed(s: seq<byte>): seq<byte> { Digits(|s|) + [COLON] + s }

  function Unsalted(seqNo: int, value: seq<byte>): seq<byte>
  {
    SEQ_KEY + (Decimal(seqNo) + [LETTER_E] + (VALUE_KEY + Prefixed(value)))
  }

  function Signable(seqNo: int, value: seq<byte>, salt: Option<seq<byte>>): seq<byte>
  {
    match salt
    case None => Unsalted(seqNo, value)
    case Some(x) => SALT_KEY + (Prefixed(x) + Unsalted(seqNo, value))
  }

  lemma Regroup(r: seq<byte>, a: seq<byte>, b: seq<byte>, c: seq<byte>, d: seq<byte>, e: seq<byte>, f: seq<byte>,
      g: seq<byte>)
    ensures r + (a + b + c + d + e + f) + g == r + (a + (b + c + (d + (e + f + g))))
  {
  }

  lemma RegroupSalt(a: seq<byte>, b: seq<byte>, c: seq<byte>, d: seq<byte>, u: seq<byte>)
    ensures (a + b + c) + d + u == a + (b + c + d + u)
  {
  }

  /** `encode_signable`: append the parts to one buffer. */
  method EncodeSignable(seqNo: i64, value: seq<byte>, salt: Option<seq<byte>>) returns (r: seq<byte>)
    ensures r == Signable(seqNo, value, salt)
  {
    r := [];
    if salt.Some? {
      r := SALT_KEY + Digits(|salt.value|) + [COLON];
      r := r + salt.value;
      RegroupSalt(SALT_KEY, Digits(|salt.value|), [COLON], salt.value, Unsalted(seqNo, value));
    }
    Regroup(r, SEQ_KEY, Decimal(seqNo), [LETTER_E], VALUE_KEY, Digits(|value|), [COLON], value);
    r := r + (SEQ_KEY + Decimal(seqNo) + [LETTER_E] + VALUE_KEY + Digits(|value|) + [COLON]);
    r := r + value;
  }

  // === A parser that undoes the encoding ===

  /** The number a digit string denotes. */
  function Number(ds: seq<byte>): int
  {
    if ds == [] then 0 else 10 * Number(ds[..|ds| - 1]) + (ds[|ds| - 1] as int - 48)
  }

  function SignedNumber(ds: seq<byte>): int
  {
    if ds != [] && ds[0] == MINUS then -Number(ds[1..]) else Number(ds)
  }

  function Scan(s: seq<byte>, b: byte): (i: nat)
    ensures i <= |s|
  {
    if s == [] || s[0] == b then 0 else 1 + Scan(s[1..], b)
  }

  /** A length, a colon, that many bytes; and what follows. */
  function ParsePrefixed(s: seq<byte>): Option<(seq<byte>, seq<byte>)>
  {
    var i := Scan(s, COLON);
    if i == |s| then None
    else
      var n := Number(s[..i]);
      if n < 0 || i + 1 + n > |s| then None else Some((s[i + 1..i + 1 + n], s[i + 1 + n..]))
  }

  function Expect(s: seq<byte>, key: seq<byte>): Option<seq<byte>>
  {
    if key <= s then Some(s[|key|..]) else None
  }

  function ParseUnsalted(s: seq<byte>): Option<(int, seq<byte>)>
  {
    match Expect(s, SEQ_KEY)
    case None => None
    case Some(rest) =>
      var i := Scan(rest, LETTER_E);
      if i == |rest| then None
      else
        match Expect(rest[i + 1..], VALUE_KEY)
        case None => None
        case Some(tail) =>
          match ParsePrefixed(tail)
          case None => None
          case Some(p) => if p.1 == [] then Some((SignedNumber(rest[..i]), p.0)) else None
  }

  function ParseSignable(s: seq<byte>): Option<(int, seq<byte>, Option<seq<byte>>)>
  {
    match Expect(s, SALT_KEY)
    case None =>
      (match ParseUnsalted(s)
       case None => None
       case Some(p) => Some((p.0, p.1, None)))
    case Some(rest) =>
      match ParsePrefixed(rest)
      case None => None
      case Some(q) =>
        match ParseUnsalted(q.1)
        case None => None
        case Some(p) => Some((p.0, p.1, Some(q.0)))
  }

  lemma {:induction false} NumberOfDigits(n: nat)
    ensures Number(Digits(n)) == n
  {
    if n >= 10 {
      NumberOfDigits(n / 10);
      assert Digits(n)[..|Digits(n)| - 1] == Digits(n / 10);
    } else {
      assert Number([48 + n][..0]) == 0;
    }
  }

  lemma NumberOfDecimal(n: int)
    ensures SignedNumber(Decimal(n)) == n
  {
    if n < 0 {
      NumberOfDigits(-n);
      assert Decimal(n)[1..] == Digits(-n);
    } else {
      NumberOfDigits(n);
    }
  }

  lemma {:induction false} FindFirst(a: seq<byte>, b: byte, rest: seq<byte>)
    requires forall i :: 0 <= i < |a| ==> a[i] != b
    ensures Scan(a + [b] + rest, b) == |a|
  {
    var s := a + [b] + rest;
    if a != [] {
      FindFirst(a[1..], b, rest);
      assert s[1..] == a[1..] + [b] + rest;
      assert s[0] == a[0];
    }
  }

  lemma PrefixedRoundTrip(s: seq<byte>, rest: seq<byte>)
    ensures var p := ParsePrefixed(Prefixed(s) + rest); p.Some? && p.value.0 == s && p.value.1 == rest
  {
    var ds := Digits(|s|);
    var whole := Prefixed(s) + rest;
    assert whole == ds + [COLON] + (s + rest);
    FindFirst(ds, COLON, s + rest);
    assert whole[..|ds|] == ds;
    NumberOfDigits(|s|);
    assert whole[|ds| + 1..|ds| + 1 + |s|] == s;
    assert whole[|ds| + 1 + |s|..] == rest;
  }

  lemma ExpectKey(key: seq<byte>, rest: seq<byte>)
    ensures Expect(key + rest, key).Some? && Expect(key + rest, key).value == rest
  {
  }

  lemma SplitAt(a: seq<byte>, b: byte, rest: seq<byte>)
    requires forall i :: 0 <= i < |a| ==> a[i] != b
    ensures var s := a + [b] + rest; Scan(s, b) == |a| < |s| && s[..|a|] == a && s[|a| + 1..] == rest
  {
    FindFirst(a, b, rest);
  }

  lemma UnsaltedRoundTrip(seqNo: int, value: seq<byte>)
    ensures var p := ParseUnsalted(Unsalted(seqNo, value)); p.Some? && p.value.0 == seqNo && p.value.1 == value
  {
    var ds, tail := Decimal(seqNo), VALUE_KEY + Prefixed(value);
    ExpectKey(SEQ_KEY, ds + [LETTER_E] + tail);
    SplitAt(ds, LETTER_E, tail);
    NumberOfDecimal(seqNo);
    ExpectKey(VALUE_KEY, Prefixed(value));
    PrefixedRoundTrip(value, []);
    assert Prefixed(value) + [] == Prefixed(value);
  }

  lemma SaltKeyOrSeqKey(rest: seq<byte>)
    ensures Expect(SEQ_KEY + rest, SALT_KEY).None?
  {
    assert (SEQ_KEY + rest)[0] == SEQ_KEY[0];
  }

  lemma SaltedRoundTrip(seqNo: int, value: seq<byte>, salt: seq<byte>)
    ensures var p := ParseSignable(SALT_KEY + (Prefixed(salt) + Unsalted(seqNo, value)));
            p.Some? && p.value.0 == seqNo && p.value.1 == value && p.value.2 == Some(salt)
  {
    var u := Unsalted(seqNo, value);
    UnsaltedRoundTrip(seqNo, value);
    ExpectKey(SALT_KEY, Prefixed(salt) + u);
    PrefixedRoundTrip(salt, u);
  }

  /** The encoding can be read back, so it loses nothing. */
  lemma SignableRoundTrip(seqNo: int, value: seq<byte>, salt: Option<seq<byte>>)
    ensures var p := ParseSignable(Signable(seqNo, value, salt));
            p.Some? && p.value.0 == seqNo && p.value.1 == value && p.value.2 == salt
  {
    if salt.None? {
      UnsaltedRoundTrip(seqNo, value);
      SaltKeyOrSeqKey(Decimal(seqNo) + [LETTER_E] + (VALUE_KEY + Prefixed(value)));
    } else {
      SaltedRoundTrip(seqNo, value, salt.value);
    }
  }

  /** Equal encodings come from equal sequence numbers, values and salts. */
  lemma SignableInjective(seqNo: int, value: seq<byte>, salt: Option<seq<byte>>,
                          seqNo': int, value': seq<byte>, salt': Option<seq<byte>>)
    requires Signable(seqNo, value, salt) == Signable(seqNo', value', salt')
    ensures seqNo == seqNo' && value == value' && salt == salt'
  {
    SignableRoundTrip(seqNo, value, salt);
    SignableRoundTrip(seqNo', value', salt');
  }

  // === Received items ===

  /** The signature scheme: which keys decode, and which signatures verify. */
  datatype Scheme = Scheme(validKey: Key32 -> bool, verify: (Key32, seq<byte>, Sig64) -> bool)

  function FromDhtMessage(scheme: Scheme, target: Id, key: Key32, v: seq<byte>, seqNo: i64, sig: Sig64,
      salt: Option<seq<byte>>): Checked
  {
    if !scheme.validKey(key) then Refused(InvalidMutablePublicKey)
    else if !scheme.verify(key, Signable(seqNo, v, salt), sig) then Refused(InvalidMutableSignature)
    else Accepted(MutableItem(target, key, seqNo, v, sig, salt))
  }

  /** One signature of one key is good for one message at most. */
  ghost predicate Binding(scheme: Scheme)
  {
    forall k: Key32, m: seq<byte>, m': seq<byte>, sig: Sig64 ::
      scheme.verify(k, m, sig) && scheme.verify(k, m', sig) ==> m == m'
  }

  /** Under a binding scheme, two accepted items with one key and one signature agree on everything signed. */
  lemma SignatureDeterminesItem(scheme: Scheme, target: Id, target': Id, key: Key32, sig: Sig64,
                                v: seq<byte>, seqNo: i64, salt: Option<seq<byte>>,
                                v': seq<byte>, seqNo': i64, salt': Option<seq<byte>>)
    requires Binding(scheme)
    requires FromDhtMessage(scheme, target, key, v, seqNo, sig, salt).Accepted?
    requires FromDhtMessage(scheme, target', key, v', seqNo', sig, salt').Accepted?
    ensures v == v' && seqNo == seqNo' && salt == salt'
  {
    SignableInjective(seqNo, v, salt, seqNo', v', salt');
  }

  function ToItem(r: PutRequestSpecific): MutableItem
    requires r.PutMutable?
  {
    MutableItem(r.target, r.k, r.seqNo, r.v, r.sig, r.salt)
  }

  // === The most recent of several items ===

  /** The order of byte slices: the first differing byte decides, a prefix comes first. */
  predicate SliceLess(a: seq<byte>, b: seq<byte>)
  {
    b != [] && (a == [] || a[0] < b[0] || (a[0] == b[0] && SliceLess(a[1..], b[1..])))
  }

  lemma {:induction false} SliceLessTransitive(a: seq<byte>, b: seq<byte>, c: seq<byte>)
    requires SliceLess(a, b) && SliceLess(b, c)
    ensures SliceLess(a, c)
  {
    if a != [] && a[0] == b[0] && b[0] == c[0] {
      SliceLessTransitive(a[1..], b[1..], c[1..]);
    }
  }

  /** What `get_mutable_most_recent` keeps of two items: the later one only at the same sequence number. */
  function Kept(best: MutableItem, item: MutableItem): MutableItem
  {
    if item.seqNo == best.seqNo && SliceLess(best.value, item.value) then item else best
  }

  function MostRecentOf(items: seq<MutableItem>): (r: Option<MutableItem>)
    ensures r.None? <==> items == []
  {
    if items == [] then None
    else if |items| == 1 then Some(items[0])
    else Some(Kept(MostRecentOf(items[..|items| - 1]).value, items[|items| - 1]))
  }

  method GetMutableMostRecent(items: seq<MutableItem>) returns (mostRecent: Option<MutableItem>)
    ensures mostRecent == MostRecentOf(items)
  {
    mostRecent := None;
    for i := 0 to |items|
      invariant mostRecent == MostRecentOf(items[..i])
    {
      assert items[..i + 1][..i] == items[..i];
      var item := items[i];
      if mostRecent.Some? {
        if item.seqNo == mostRecent.value.seqNo && SliceLess(mostRecent.value.value, item.value) {
          mostRecent := Some(item);
        }
      } else {
        mostRecent := Some(item);
      }
    }
    assert items[..|items|] == items;
  }

  /** The result is the greatest value among the items with the sequence number of the first item. */
  lemma {:induction false} MostRecentIsOfFirst(items: seq<MutableItem>)
    requires items != []
    ensures var r := MostRecentOf(items).value;
      && r in items && r.seqNo == items[0].seqNo
      && forall x :: x in items && x.seqNo == r.seqNo ==> !SliceLess(r.value, x.value)
  {
    if |items| == 1 {
      Irreflexive(items[0].value);
    } else {
      var n := |items| - 1;
      var before, item := items[..n], items[n];
      var b, r := MostRecentOf(before).value, MostRecentOf(items).value;
      MostRecentIsOfFirst(before);
      assert items == before + [item];
      forall x | x in items && x.seqNo == r.seqNo ensures !SliceLess(r.value, x.value) {
        Irreflexive(item.value);
        if r != b && x in before && SliceLess(item.value, x.value) {
          SliceLessTransitive(b.value, item.value, x.value);
        }
      }
    }
  }

  lemma {:induction false} Irreflexive(a: seq<byte>)
    ensures !SliceLess(a, a)
  {
    if a != [] {
      Irreflexive(a[1..]);
    }
  }

  /** It has the highest sequence number exactly when the first item already has. */
  lemma {:induction false} MostRecentIff(items: seq<MutableItem>)
    requires items != []
    ensures (forall x :: x in items ==> x.seqNo <= MostRecentOf(items).value.seqNo)
        <==> (forall x :: x in items ==> x.seqNo <= items[0].seqNo)
  {
    MostRecentIsOfFirst(items);
  }
}
