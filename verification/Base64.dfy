/** Canonical standard base64 (section 4 of RFC 4648), validated in chunks and read at decoded offsets. */
module Base64 {
  import opened Text

  const PAD: Byte := 61

  /** The value of a symbol of the alphabet, and -1 for any other byte. */
  function Value(b: Byte): (v: int)
    ensures -1 <= v < 64
  {
    if 65 <= b <= 90 then b - 65
    else if 97 <= b <= 122 then b - 71
    else if 48 <= b <= 57 then b + 4
    else if b == 43 then 62
    else if b == 47 then 63
    else -1
  }

  function Symbol(v: int): (b: Byte)
    requires 0 <= v < 64
    ensures Value(b) == v && b != PAD
  {
    if v < 26 then v + 65 else if v < 52 then v + 71 else if v < 62 then v - 4 else if v == 62 then 43 else 47
  }

  const ALPHABET := "ABCDEFGHIJKLMNOPQRSTUVWXYZ" + "abcdefghijklmnopqrstuvwxyz" + "0123456789" + "+/"

  lemma CapitalAt(v: int)
    requires 0 <= v < 26
    ensures "ABCDEFGHIJKLMNOPQRSTUVWXYZ"[v] as int == v + 65
  {
  }

  lemma SmallAt(v: int)
    requires 0 <= v < 26
    ensures "abcdefghijklmnopqrstuvwxyz"[v] as int == v + 97
  {
  }

  lemma DigitAt(v: int)
    requires 0 <= v < 10
    ensures "0123456789"[v] as int == v + 48
  {
  }

  /** The symbols are those of the standard alphabet of RFC 4648 (section 4), each at its own value. */
  lemma SymbolsAreStandard(v: int)
    requires 0 <= v < 64
    ensures |ALPHABET| == 64 && Symbol(v) as int == ALPHABET[v] as int
  {
    if v < 26 {
      CapitalAt(v);
    } else if v < 52 {
      SmallAt(v - 26);
    } else if v < 62 {
      DigitAt(v - 52);
    }
  }

  /** Nothing else has a value. */
  lemma ValuesAreStandard(b: Byte)
    ensures 0 <= Value(b) <==> exists v :: 0 <= v < |ALPHABET| && ALPHABET[v] as int == b as int
    ensures PAD as int == '=' as int
  {
    if 0 <= Value(b) {
      SymbolsAreStandard(Value(b));
    }
    forall v | 0 <= v < |ALPHABET| && ALPHABET[v] as int == b as int ensures 0 <= Value(b) {
      SymbolsAreStandard(v);
    }
  }

  /** One group of four symbols: three bytes, or fewer when padded; stray bits must be zero. */
  function DecodeQuantum(q: seq<Byte>): (d: Option<seq<Byte>>)
    requires |q| == 4
    ensures d.Some? ==> 1 <= |d.value| <= 3 && (|d.value| < 3 <==> q[3] == PAD)
    ensures d.Some? ==> |d.value| == 3 - (if q[3] == PAD then if q[2] == PAD then 2 else 1 else 0)
  {
    var v0, v1, v2, v3 := Value(q[0]), Value(q[1]), Value(q[2]), Value(q[3]);
    if v0 < 0 || v1 < 0 then None
    else if v2 >= 0 && v3 >= 0 then Some([v0 * 4 + v1 / 16, v1 % 16 * 16 + v2 / 4, v2 % 4 * 64 + v3])
    else if v2 >= 0 && q[3] == PAD && v2 % 4 == 0 then Some([v0 * 4 + v1 / 16, v1 % 16 * 16 + v2 / 4])
    else if q[2] == PAD && q[3] == PAD && v1 % 16 == 0 then Some([v0 * 4 + v1 / 16])
    else None
  }

  /** A whole text: full groups, of which only the last may be padded. */
  function Decode(s: seq<Byte>): Option<seq<Byte>> {
    if s == [] then Some([])
    else if |s| < 4 then None
    else
      match DecodeQuantum(s[..4])
      case None => None
      case Some(d) =>
        if |s| == 4 then Some(d)
        else if |d| < 3 then None
        else
          match Decode(s[4..])
          case None => None
          case Some(rest) => Some(d + rest)
  }

  function EncodeGroup(d: seq<Byte>): (q: seq<Byte>)
    requires 1 <= |d| <= 3
    ensures |q| == 4
  {
    if |d| == 1 then [Symbol(d[0] / 4), Symbol(d[0] % 4 * 16), PAD, PAD]
    else if |d| == 2 then [Symbol(d[0] / 4), Symbol(d[0] % 4 * 16 + d[1] / 16), Symbol(d[1] % 16 * 4), PAD]
    else [Symbol(d[0] / 4), Symbol(d[0] % 4 * 16 + d[1] / 16), Symbol(d[1] % 16 * 4 + d[2] / 64), Symbol(d[2] % 64)]
  }

  /** The values of a group's symbols are the bits of its bytes, six at a time, the first byte first. */
  lemma GroupIsBigEndian(d: seq<Byte>)
    requires 1 <= |d| <= 3
    ensures var q := EncodeGroup(d);
            match |d|
            case 1 => q[2] == q[3] == PAD && Value(q[0]) * 64 + Value(q[1]) == d[0] as int * 16
            case 2 =>
              && q[3] == PAD
              && Value(q[0]) * 4096 + Value(q[1]) * 64 + Value(q[2]) == (d[0] as int * 256 + d[1] as int) * 4
            case _ =>
              Value(q[0]) * 262144 + Value(q[1]) * 4096 + Value(q[2]) * 64 + Value(q[3])
              == d[0] as int * 65536 + d[1] as int * 256 + d[2] as int
  {
    hide Value, Symbol;
    Unpack(d[0], if 1 < |d| then d[1] else 0, if 2 < |d| then d[2] else 0);
  }

  lemma Unpack(b0: Byte, b1: Byte, b2: Byte)
    ensures var v0, v1, v2, v3 := b0 / 4, b0 % 4 * 16 + b1 / 16, b1 % 16 * 4 + b2 / 64, b2 % 64;
            && v0 * 4 + v1 / 16 == b0 && v1 % 16 * 16 + v2 / 4 == b1 && v2 % 4 * 64 + v3 == b2
  {
  }

  lemma Repack(v0: int, v1: int, v2: int, v3: int)
    requires 0 <= v0 < 64 && 0 <= v1 < 64 && 0 <= v2 < 64 && 0 <= v3 < 64
    ensures var b0, b1, b2 := v0 * 4 + v1 / 16, v1 % 16 * 16 + v2 / 4, v2 % 4 * 64 + v3;
            && b0 / 4 == v0 && b0 % 4 * 16 + b1 / 16 == v1 && b1 % 16 * 4 + b2 / 64 == v2 && b2 % 64 == v3
  {
  }

  lemma GroupDecodes(d: seq<Byte>)
    requires 1 <= |d| <= 3
    ensures DecodeQuantum(EncodeGroup(d)) == Some(d)
  {
    var q := EncodeGroup(d);
    Unpack(d[0], if 1 < |d| then d[1] else 0, if 2 < |d| then d[2] else 0);
    assert Value(PAD) == -1;
    hide Symbol, Value;
    if |d| == 1 {
      assert Value(q[0]) == d[0] / 4 && Value(q[1]) == d[0] % 4 * 16;
      assert DecodeQuantum(q).value == d;
    } else if |d| == 2 {
      assert Value(q[2]) == d[1] % 16 * 4;
      assert DecodeQuantum(q).value == d;
    } else {
      assert DecodeQuantum(q).value == d;
    }
  }

  function Encode(d: seq<Byte>): seq<Byte> {
    if d == [] then []
    else if |d| <= 3 then EncodeGroup(d)
    else EncodeGroup(d[..3]) + Encode(d[3..])
  }

  lemma {:induction false} DecodeEncode(d: seq<Byte>)
    ensures Decode(Encode(d)) == Some(d)
  {
    if 3 < |d| {
      GroupDecodes(d[..3]);
      DecodeEncode(d[3..]);
      assert Encode(d)[..4] == EncodeGroup(d[..3]);
      assert Encode(d)[4..] == Encode(d[3..]);
      assert d == d[..3] + d[3..];
    } else if d != [] {
      GroupDecodes(d);
      assert Encode(d)[..4] == Encode(d);
    }
  }

  lemma SymbolOfValue(b: Byte)
    requires Value(b) >= 0
    ensures Symbol(Value(b)) == b
  {
  }

  lemma QuantumIsCanonical(q: seq<Byte>)
    requires |q| == 4 && DecodeQuantum(q).Some?
    ensures EncodeGroup(DecodeQuantum(q).value) == q
  {
    hide Value, Symbol;
    SymbolOfValue(q[0]);
    SymbolOfValue(q[1]);
    var d := DecodeQuantum(q).value;
    if |d| == 3 {
      SymbolOfValue(q[2]);
      SymbolOfValue(q[3]);
      Repack(Value(q[0]), Value(q[1]), Value(q[2]), Value(q[3]));
    } else if |d| == 2 {
      SymbolOfValue(q[2]);
      Repack(Value(q[0]), Value(q[1]), Value(q[2]), 0);
    } else {
      Repack(Value(q[0]), Value(q[1]), 0, 0);
    }
  }

  /** The decoder accepts nothing but what the encoder writes. */
  lemma {:induction false} EncodeDecode(s: seq<Byte>)
    requires Decode(s).Some?
    ensures Encode(Decode(s).value) == s
  {
    if 4 <= |s| {
      QuantumIsCanonical(s[..4]);
      if |s| == 4 {
        assert s[..4] == s;
      } else {
        EncodeDecode(s[4..]);
        var d := Decode(s).value;
        assert d[..3] == DecodeQuantum(s[..4]).value && d[3..] == Decode(s[4..]).value;
        assert s == s[..4] + s[4..];
      }
    }
  }

  predicate Padded(s: seq<Byte>) {
    s != [] && s[|s| - 1] == PAD
  }

  /** Decoding goes on after a complete unpadded text, and stops for good after a padded one. */
  lemma {:induction false} DecodeConcat(w: seq<Byte>, x: seq<Byte>)
    requires Decode(w).Some?
    ensures Padded(w) && x != [] ==> Decode(w + x) == None
    ensures !Padded(w) ==> Decode(w + x) ==
                           match Decode(x)
                           case None => None
                           case Some(rest) => Some(Decode(w).value + rest)
  {
    if w == [] {
      assert w + x == x;
      if Decode(x).Some? {
        assert [] + Decode(x).value == Decode(x).value;
      }
    } else if x == [] {
      assert w + x == w;
      EmptyIsUnit(Decode(w).value);
    } else {
      var head, tail := w[..4], w[4..];
      assert (w + x)[..4] == head && (w + x)[4..] == tail + x;
      if |w| == 4 {
        assert tail + x == x;
      } else {
        DecodeConcat(tail, x);
        if Decode(x).Some? {
          Associative(DecodeQuantum(head).value, Decode(tail).value, Decode(x).value);
        }
      }
    }
  }

  /** Four symbols carry three bytes, less one for each pad. */
  lemma {:induction false} DecodedSize(s: seq<Byte>)
    requires Decode(s).Some?
    ensures |s| % 4 == 0
    ensures |Decode(s).value| + (if Padded(s) then if s[|s| - 2] == PAD then 2 else 1 else 0) == |s| / 4 * 3
  {
    if 4 < |s| {
      DecodedSize(s[4..]);
    }
  }

  /** The length a stored text decodes to, told from its size and its last two bytes. */
  function DecodedLen(stored: nat, tail: seq<Byte>): Option<nat> {
    if stored == 0 then Some(0)
    else if stored % 4 != 0 || |tail| != 2 then None
    else
      var padding := if tail[1] != PAD then 0 else if tail[0] != PAD then 1 else 2;
      if stored / 4 * 3 < padding then None else Some(stored / 4 * 3 - padding)
  }

  function Tail(s: seq<Byte>): seq<Byte> {
    if |s| < 2 then [] else s[|s| - 2..]
  }

  /** For a canonical text the tail alone tells the decoded length exactly. */
  lemma DecodedLenIsExact(s: seq<Byte>)
    requires Decode(s).Some?
    ensures DecodedLen(|s|, Tail(s)) == Some(|Decode(s).value|)
  {
    DecodedSize(s);
  }

  /** The chunk-by-chunk validator. */
  datatype Validator = Validator(quantum: seq<Byte>, padded: bool, invalid: bool, decoded: nat)

  const FRESH := Validator([], false, false, 0)

  predicate Sane(v: Validator) {
    |v.quantum| < 4
  }

  function Feed(v: Validator, b: Byte): (v': Validator)
    requires Sane(v)
    ensures Sane(v')
  {
    if v.invalid then v
    else if v.padded then v.(invalid := true)
    else
      var q := v.quantum + [b];
      if |q| < 4 then v.(quantum := q)
      else
        match DecodeQuantum(q)
        case None => v.(invalid := true)
        case Some(d) => Validator([], q[3] == PAD, false, v.decoded + |d|)
  }

  function FeedAll(v: Validator, bytes: seq<Byte>): (v': Validator)
    requires Sane(v)
    ensures Sane(v')
  {
    if bytes == [] then v else Feed(FeedAll(v, bytes[..|bytes| - 1]), bytes[|bytes| - 1])
  }

  lemma {:induction false} InvalidStays(v: Validator, bytes: seq<Byte>, n: nat)
    requires Sane(v) && n <= |bytes| && FeedAll(v, bytes[..n]).invalid
    ensures FeedAll(v, bytes) == FeedAll(v, bytes[..n])
    decreases |bytes|
  {
    if n == |bytes| {
      assert bytes[..n] == bytes;
    } else {
      assert bytes[..|bytes| - 1][..n] == bytes[..n];
      InvalidStays(v, bytes[..|bytes| - 1], n);
    }
  }

  /** Where a text is cut into chunks makes no difference. */
  lemma {:induction false} ChunksDoNotMatter(v: Validator, a: seq<Byte>, b: seq<Byte>)
    requires Sane(v)
    ensures FeedAll(FeedAll(v, a), b) == FeedAll(v, a + b)
  {
    if b == [] {
      assert a + b == a;
    } else {
      ChunksDoNotMatter(v, a, b[..|b| - 1]);
      assert (a + b)[..|a + b| - 1] == a + b[..|b| - 1];
    }
  }

  method Write(v: Validator, bytes: seq<Byte>) returns (v': Validator, ok: bool)
    requires Sane(v)
    ensures v' == FeedAll(v, bytes) && ok == !v'.invalid
  {
    v' := v;
    if v.invalid {
      InvalidStays(v, bytes, 0);
      return v', false;
    }
    for i := 0 to |bytes|
      invariant v' == FeedAll(v, bytes[..i]) && !v'.invalid
    {
      assert bytes[..i + 1][..i] == bytes[..i];
      v' := Feed(v', bytes[i]);
      if v'.invalid {
        InvalidStays(v, bytes, i + 1);
        return v', false;
      }
    }
    assert bytes[..|bytes|] == bytes;
    ok := true;
  }

  predicate Finishes(v: Validator) {
    !v.invalid && v.quantum == []
  }

  /** What the validator knows of the text so far. */
  ghost predicate Follows(v: Validator, s: seq<Byte>) {
    if v.invalid then forall more :: Decode(s + more) == None
    else
      && |v.quantum| <= |s|
      && var whole := s[..|s| - |v.quantum|];
         && v.quantum == s[|whole|..]
         && Decode(whole).Some? && |Decode(whole).value| == v.decoded
         && (v.padded <==> Padded(whole))
         && (v.padded ==> v.quantum == [])
  }

  /** What cannot become canonical cannot after one more byte. */
  lemma FollowsInvalid(v: Validator, s: seq<Byte>, b: Byte)
    requires Follows(v, s) && v.invalid
    ensures Follows(v, s + [b])
  {
    hide Decode;
    forall more ensures Decode(s + [b] + more) == None {
      Associative(s, [b], more);
    }
  }

  /** Nothing may follow padding. */
  lemma FollowsPadded(v: Validator, s: seq<Byte>, b: Byte)
    requires Follows(v, s) && !v.invalid && v.padded
    ensures Follows(v.(invalid := true), s + [b])
  {
    hide Decode;
    assert s[..|s|] == s;
    forall more ensures Decode(s + [b] + more) == None {
      Associative(s, [b], more);
      DecodeConcat(s, [b] + more);
    }
  }

  /** A byte that does not complete a group waits. */
  lemma FollowsWaits(v: Validator, s: seq<Byte>, b: Byte)
    requires Follows(v, s) && !v.invalid && !v.padded && |v.quantum| < 3
    ensures Follows(v.(quantum := v.quantum + [b]), s + [b])
  {
    hide Decode;
    var whole := s[..|s| - |v.quantum|];
    assert (s + [b])[..|s + [b]| - |v.quantum + [b]|] == whole;
    assert (s + [b])[|whole|..] == v.quantum + [b];
  }

  lemma FollowsNext(v: Validator, s: seq<Byte>, b: Byte)
    requires Sane(v) && Follows(v, s)
    ensures Follows(Feed(v, b), s + [b])
  {
    hide Decode, DecodeQuantum, Follows;
    if v.invalid {
      FollowsInvalid(v, s, b);
    } else if v.padded {
      FollowsPadded(v, s, b);
    } else if |v.quantum| < 3 {
      FollowsWaits(v, s, b);
    } else {
      FollowsFourth(v, s, b);
    }
  }

  lemma FollowsFourth(v: Validator, s: seq<Byte>, b: Byte)
    requires Follows(v, s) && !v.invalid && !v.padded && |v.quantum| == 3
    ensures Follows(Feed(v, b), s + [b])
  {
    hide Decode, DecodeQuantum;
    var whole, q := s[..|s| - 3], v.quantum + [b];
    assert s + [b] == whole + q;
    FollowsGroup(v, whole, q, s + [b]);
  }

  lemma FollowsGroup(v: Validator, whole: seq<Byte>, q: seq<Byte>, s: seq<Byte>)
    requires |q| == 4 && s == whole + q && Decode(whole).Some? && !Padded(whole)
    requires !v.invalid && !v.padded && |Decode(whole).value| == v.decoded
    ensures match DecodeQuantum(q)
            case None => forall more :: Decode(s + more) == None
            case Some(d) => Follows(Validator([], q[3] == PAD, false, v.decoded + |d|), s)
  {
    match DecodeQuantum(q)
    case None =>
      forall more ensures Decode(s + more) == None {
        assert s + more == whole + (q + more);
        assert (q + more)[..4] == q;
        DecodeConcat(whole, q + more);
      }
    case Some(d) =>
      assert q[..4] == q;
      DecodeConcat(whole, q);
      assert s[..|s|] == s;
  }

  lemma {:induction false} FollowsAll(s: seq<Byte>)
    ensures Follows(FeedAll(FRESH, s), s)
  {
    if s != [] {
      FollowsAll(s[..|s| - 1]);
      FollowsNext(FeedAll(FRESH, s[..|s| - 1]), s[..|s| - 1], s[|s| - 1]);
      Split(s);
    }
  }

  /** Every complete group so far is canonical, and nothing follows a padded one. */
  predicate GroupsFine(s: seq<Byte>) {
    var whole := s[..|s| - |s| % 4];
    Decode(whole).Some? && (Padded(whole) ==> whole == s)
  }

  lemma {:induction false} FewBytesWait(v: Validator, bytes: seq<Byte>)
    requires !v.invalid && !v.padded && v.quantum == [] && |bytes| < 4
    ensures FeedAll(v, bytes) == v.(quantum := bytes)
  {
    if bytes != [] {
      FewBytesWait(v, bytes[..|bytes| - 1]);
      Split(bytes);
    }
  }

  lemma ValidIsFine(s: seq<Byte>)
    requires !FeedAll(FRESH, s).invalid
    ensures GroupsFine(s)
  {
    hide Decode, FeedAll;
    FollowsAll(s);
    var v := FeedAll(FRESH, s);
    var whole := s[..|s| - |v.quantum|];
    DecodedSize(whole);
    Remainder(|whole|, |v.quantum|);
  }

  lemma Remainder(n: nat, q: nat)
    requires n % 4 == 0 && q < 4
    ensures (n + q) % 4 == q
  {
  }

  /** After complete groups with no padding, fewer than four bytes only wait. */
  lemma FineThenFew(whole: seq<Byte>, rest: seq<Byte>)
    requires Decode(whole).Some? && !Padded(whole) && |rest| < 4
    ensures !FeedAll(FRESH, whole + rest).invalid
  {
    ValidatorDecides(whole);
    FollowsAll(whole);
    ChunksDoNotMatter(FRESH, whole, rest);
    assert whole[..|whole|] == whole;
    hide Decode, FeedAll;
    FewBytesWait(FeedAll(FRESH, whole), rest);
  }

  /** A validator is invalid exactly if some complete group it has seen was not fine. */
  lemma InvalidMeans(s: seq<Byte>)
    ensures FeedAll(FRESH, s).invalid <==> !GroupsFine(s)
  {
    hide Decode, FeedAll;
    if !FeedAll(FRESH, s).invalid {
      ValidIsFine(s);
    }
    if GroupsFine(s) {
      var whole := s[..|s| - |s| % 4];
      if Padded(whole) {
        ValidatorDecides(s);
      } else {
        assert s == whole + s[|whole|..];
        FineThenFew(whole, s[|whole|..]);
      }
    }
  }

  /** The validator accepts exactly the canonical texts and counts their decoded bytes. */
  lemma ValidatorDecides(s: seq<Byte>)
    ensures var v := FeedAll(FRESH, s);
            && (Finishes(v) <==> Decode(s).Some?)
            && (Finishes(v) ==> v.decoded == |Decode(s).value|)
  {
    var v := FeedAll(FRESH, s);
    FollowsAll(s);
    if v.invalid {
      EmptyIsUnit(s);
      assert Decode(s + []) == None;
    } else if v.quantum == [] {
      assert s[..|s|] == s;
    } else {
      var whole := s[..|s| - |v.quantum|];
      assert s == whole + v.quantum;
      DecodeConcat(whole, v.quantum);
    }
  }

  /** Past the first group, decoding starts afresh. */
  lemma DecodeRest(s: seq<Byte>)
    requires Decode(s).Some? && 3 <= |Decode(s).value|
    ensures 4 <= |s| && Decode(s[4..]) == Some(Decode(s).value[3..])
  {
    hide DecodeQuantum;
    var d := Decode(s).value;
    if |s| == 4 {
      assert s[4..] == [] && d[3..] == [];
    } else {
      assert d == DecodeQuantum(s[..4]).value + Decode(s[4..]).value;
    }
  }

  /** Decoding from a group boundary gives the rest of the decoded text. */
  lemma {:induction false} DecodeFrom(s: seq<Byte>, k: nat)
    requires Decode(s).Some? && 3 * k <= |Decode(s).value|
    ensures 4 * k <= |s| && Decode(s[4 * k..]) == Some(Decode(s).value[3 * k..])
  {
    hide Decode;
    var d := Decode(s).value;
    if k == 0 {
      assert s[0..] == s && d[0..] == d;
    } else {
      DecodeRest(s);
      DecodeFrom(s[4..], k - 1);
      DropDrop(s, 4, 4 * (k - 1));
      DropDrop(d, 3, 3 * (k - 1));
    }
  }

  /** Reads `count` decoded bytes at a decoded offset, starting at the group that holds it. */
  function ReadDecoded(s: seq<Byte>, offset: nat, count: nat): Option<seq<Byte>> {
    var encoded, skip := offset / 3 * 4, offset % 3;
    if |s| < encoded then None
    else
      match Decode(s[encoded..])
      case None => None
      case Some(d) => if skip + count <= |d| then Some(d[skip..skip + count]) else None
  }

  /** A positional read of a canonical text is a slice of what it decodes to. */
  lemma ReadDecodedIsSlice(s: seq<Byte>, offset: nat, count: nat)
    requires Decode(s).Some? && offset + count <= |Decode(s).value|
    ensures ReadDecoded(s, offset, count) == Some(Decode(s).value[offset..offset + count])
  {
    var d, k := Decode(s).value, offset / 3;
    DecodeFrom(s, k);
    assert d[3 * k..][offset % 3..offset % 3 + count] == d[offset..offset + count];
  }
}
