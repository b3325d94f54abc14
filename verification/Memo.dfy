/**
 Base58 decoding and the transaction-memo layout of memo.ts. The double SHA-256 checksum is a
 parameter, and text decoding of the content bytes is left to the caller.
 */
module Memo {
  import opened Primitives

  /** Digits and letters without 0, I, O and l. */
  const BASE58_ALPHABET: string := "123456789" + "ABCDEFGH" + "JKLMN" + "PQRSTUVWXYZ" + "abcdefghijk" + "mnopqrstuvwxyz"

  type byte = b: int | 0 <= b < 256

  /** A base-58 digit. */
  type digit = d: int | 0 <= d < 58

  function IndexIn(s: string, c: char): (i: int)
    ensures -1 <= i < |s| && (i >= 0 ==> s[i] == c) && (i == -1 ==> c !in s)
  {
    if s == [] then -1 else if s[0] == c then 0 else var rest := IndexIn(s[1..], c); if rest < 0 then -1 else rest + 1
  }

  /** The digits of a string, or None when some character is not in the alphabet. */
  function Digits(s: string): (r: Option<seq<digit>>)
    ensures r.Some? ==> |r.value| == |s|
  {
    if s == [] then Some([])
    else
      var init, last := Digits(s[..|s| - 1]), IndexIn(BASE58_ALPHABET, s[|s| - 1]);
      if init.None? || last < 0 then None else Some(init.value + [last])
  }

  /** The number a digit string denotes. */
  function Value(ds: seq<digit>): (v: nat)
  {
    if ds == [] then 0 else 58 * Value(ds[..|ds| - 1]) + ds[|ds| - 1]
  }

  /** The number little-endian bytes denote. */
  function LittleEndian(bs: seq<byte>): (v: nat)
  {
    if bs == [] then 0 else bs[0] + 256 * LittleEndian(bs[1..])
  }

  /** The number big-endian bytes denote. */
  function BigEndian(bs: seq<byte>): (v: nat)
  {
    if bs == [] then 0 else 256 * BigEndian(bs[..|bs| - 1]) + bs[|bs| - 1]
  }

  /** How many leading digits are zero, that is, leading '1' characters. */
  function LeadingZeros(ds: seq<int>): (n: nat)
    ensures n <= |ds| && (forall i :: 0 <= i < n ==> ds[i] == 0) && (n < |ds| ==> ds[n] != 0)
  {
    if ds == [] || ds[0] != 0 then 0 else 1 + LeadingZeros(ds[1..])
  }

  function Zeros(n: nat): (r: seq<byte>)
    ensures |r| == n && forall i :: 0 <= i < n ==> r[i] == 0
  {
    seq(n, i => 0)
  }

  /** The shortest big-endian representation. */
  function Minimal(v: nat): (bs: seq<byte>)
    ensures BigEndian(bs) == v && (bs != [] ==> bs[0] != 0) && (bs == [] <==> v == 0)
  {
    if v == 0 then []
    else
      var bs := Minimal(v / 256) + [v % 256];
      assert bs[..|bs| - 1] == Minimal(v / 256);
      bs
  }

  // ---- arithmetic of the carry loops ----

  function Pow256(n: nat): (p: nat)
    ensures p > 0
  {
    if n == 0 then 1 else 256 * Pow256(n - 1)
  }

  lemma {:induction false} LittleSnoc(bs: seq<byte>, b: byte)
    ensures LittleEndian(bs + [b]) == LittleEndian(bs) + Pow256(|bs|) * b
  {
    if bs == [] {
      assert [b][1..] == [];
      assert LittleEndian([b]) == b;
    } else {
      assert (bs + [b])[1..] == bs[1..] + [b];
      LittleSnoc(bs[1..], b);
    }
  }

  /**
   Multiplies the bytes by 58 and adds `start`; the carry never leaves 255 * 58 + 57, so the bit operations are
   exact.
   */
  method MultiplyAdd(bytes: seq<byte>, start: digit) returns (r: seq<byte>, carry: nat)
    ensures |r| == |bytes| && carry <= 57
    ensures LittleEndian(r) + Pow256(|r|) * carry == 58 * LittleEndian(bytes) + start
    ensures bytes != [] && carry == 0 && bytes[|bytes| - 1] != 0 ==> r[|r| - 1] != 0
  {
    r, carry := [], start;
    for j := 0 to |bytes|
      invariant |r| == j && carry <= 57
      invariant LittleEndian(r) + Pow256(j) * carry == 58 * LittleEndian(bytes[..j]) + start
      invariant j > 0 && carry == 0 && bytes[j - 1] != 0 ==> r[j - 1] != 0
    {
      assert bytes[..j + 1] == bytes[..j] + [bytes[j]];
      LittleSnoc(bytes[..j], bytes[j]);
      var b: int := bytes[j];
      var sum := carry + b * 58;
      assert sum <= 255 * 58 + 57;
      LittleSnoc(r, sum % 256);
      CarryStep(LittleEndian(r), Pow256(j), carry, b, LittleEndian(bytes[..j]), start);
      r := r + [sum % 256];
      carry := sum / 256;
    }
    assert bytes[..|bytes|] == bytes;
  }

  lemma CarryStep(done: nat, p: nat, carry: nat, b: nat, before: nat, start: nat)
    requires done + p * carry == 58 * before + start
    ensures var sum := carry + b * 58; done + p * (sum % 256) + 256 * p * (sum / 256) == 58 * (before + p * b) + start
  {
    var sum := carry + b * 58;
    assert p * (sum % 256) + 256 * p * (sum / 256) == p * sum by {
      assert sum == sum % 256 + 256 * (sum / 256);
      assert p * (sum % 256 + 256 * (sum / 256)) == p * (sum % 256) + p * (256 * (sum / 256));
      assert p * (256 * (sum / 256)) == 256 * p * (sum / 256);
    }
    assert p * sum == p * carry + 58 * (p * b);
  }

  // ---- decoding ----

  function ReversedBytes(bs: seq<byte>): (r: seq<byte>)
    ensures |r| == |bs|
  {
    if bs == [] then [] else ReversedBytes(bs[1..]) + [bs[0]]
  }

  /** Little-endian bytes whose top byte is non-zero are the shortest representation, read backwards. */
  lemma {:induction false} MinimalUnique(bs: seq<byte>)
    requires bs != [] ==> bs[|bs| - 1] != 0
    ensures ReversedBytes(bs) == Minimal(LittleEndian(bs))
    ensures bs != [] ==> LittleEndian(bs) > 0
  {
    if bs != [] {
      MinimalUnique(bs[1..]);
      if |bs| == 1 { assert bs[1..] == []; }
      assert LittleEndian(bs) / 256 == LittleEndian(bs[1..]) && LittleEndian(bs) % 256 == bs[0];
    }
  }

  /**
   What base58Decode returns for a digit string: a zero byte per leading '1', then the number's bytes, a zero
   counting as one byte.
   */
  function DecodedBytes(ds: seq<digit>): (r: seq<byte>)
  {
    Zeros(LeadingZeros(ds)) + (if Value(ds) == 0 then [0] else Minimal(Value(ds)))
  }

  lemma ZeroIsOne(c: char)
    ensures IndexIn(BASE58_ALPHABET, c) == 0 <==> c == '1'
  {
    assert BASE58_ALPHABET[0] == '1';
  }

  lemma {:induction false} DigitAt(s: string, i: nat)
    requires Digits(s).Some? && i < |s|
    ensures Digits(s).value[i] == IndexIn(BASE58_ALPHABET, s[i])
    ensures Digits(s).value[i] == 0 <==> s[i] == '1'
  {
    ZeroIsOne(s[i]);
    if i < |s| - 1 { DigitAt(s[..|s| - 1], i); }
  }

  lemma {:induction false} InvalidPrefix(s: string, i: nat)
    requires i <= |s| && Digits(s[..i]).None?
    ensures Digits(s).None?
    decreases |s| - i
  {
    if i == |s| {
      assert s[..i] == s;
    } else {
      assert s[..i + 1][..i] == s[..i];
      InvalidPrefix(s, i + 1);
    }
  }

  /** One input character: the bytes become the shortest bytes of 58 times their number plus the digit. */
  method PushDigit(bytes: seq<byte>, d: digit) returns (r: seq<byte>)
    requires bytes == [0] || (bytes != [] && bytes[|bytes| - 1] != 0)
    ensures r == [0] || (r != [] && r[|r| - 1] != 0)
    ensures LittleEndian(r) == 58 * LittleEndian(bytes) + d
  {
    var carry;
    r, carry := MultiplyAdd(bytes, d);
    if bytes == [0] {
      assert LittleEndian([0]) == 0 by { assert [0][1..] == []; }
      assert r[1..] == [];
      assert r == [r[0]];
    }
    while carry > 0
      invariant carry <= 57 && r != [] && (carry == 0 ==> r == [0] || r[|r| - 1] != 0)
      invariant LittleEndian(r) + Pow256(|r|) * carry == 58 * LittleEndian(bytes) + d
      decreases carry
    {
      LittleSnoc(r, carry % 256);
      r := r + [carry % 256];
      carry := carry / 256;
    }
  }

  /** The number of the digits read so far, little-endian and as short as possible, or None at a foreign character. */
  method Accumulate(input: string) returns (r: Option<seq<byte>>)
    ensures r.Some? <==> Digits(input).Some?
    ensures r.Some? ==> LittleEndian(r.value) == Value(Digits(input).value)
    ensures r.Some? ==> r.value == [0] || (r.value != [] && r.value[|r.value| - 1] != 0)
  {
    var bytes: seq<byte> := [0];
    assert LittleEndian([0]) == 0 by { assert [0][1..] == []; }
    for i := 0 to |input|
      invariant Digits(input[..i]).Some? && LittleEndian(bytes) == Value(Digits(input[..i]).value)
      invariant bytes == [0] || (bytes != [] && bytes[|bytes| - 1] != 0)
    {
      assert input[..i + 1][..i] == input[..i];
      var idx := IndexIn(BASE58_ALPHABET, input[i]);
      if idx < 0 {
        InvalidPrefix(input, i + 1);
        return None;
      }
      ghost var before := Digits(input[..i]).value;
      assert Digits(input[..i + 1]).value[..i] == before;
      bytes := PushDigit(bytes, idx);
    }
    assert input[..|input|] == input;
    return Some(bytes);
  }

  method Base58Decode(input: string) returns (r: Option<seq<byte>>)
    ensures r.Some? <==> Digits(input).Some?
    ensures r.Some? ==> r.value == DecodedBytes(Digits(input).value)
  {
    var bytes := Accumulate(input);
    if bytes.None? { return None; }
    ghost var ds := Digits(input).value;
    var zeros := 0;
    while zeros < |input| && input[zeros] == '1'
      invariant zeros <= |input| && forall i :: 0 <= i < zeros ==> input[i] == '1'
    {
      zeros := zeros + 1;
    }
    DigitZeros(input);
    LeadingOnes(input, ds, zeros);
    ReversedDecoded(bytes.value);
    r := Some(Zeros(zeros) + ReversedBytes(bytes.value));
  }

  lemma ReversedDecoded(bytes: seq<byte>)
    requires bytes == [0] || (bytes != [] && bytes[|bytes| - 1] != 0)
    ensures ReversedBytes(bytes) == if LittleEndian(bytes) == 0 then [0] else Minimal(LittleEndian(bytes))
  {
    if bytes == [0] {
      assert bytes[1..] == [];
      assert ReversedBytes(bytes) == ReversedBytes([]) + [0];
    } else {
      MinimalUnique(bytes);
    }
  }

  lemma DigitZeros(s: string)
    requires Digits(s).Some?
    ensures var ds := Digits(s).value; forall i :: 0 <= i < |s| ==> (ds[i] == 0 <==> s[i] == '1')
  {
    forall i | 0 <= i < |s| ensures Digits(s).value[i] == 0 <==> s[i] == '1' { DigitAt(s, i); }
  }

  lemma LeadingOnes(s: string, ds: seq<digit>, n: nat)
    requires |ds| == |s| && (forall i :: 0 <= i < |s| ==> (ds[i] == 0 <==> s[i] == '1'))
    requires n <= |s| && (forall i :: 0 <= i < n ==> s[i] == '1') && (n < |s| ==> s[n] != '1')
    ensures LeadingZeros(ds) == n
  {
    LeadingAt(ds, n);
  }

  lemma LeadingAt(ds: seq<int>, n: nat)
    requires n <= |ds| && (forall i :: 0 <= i < n ==> ds[i] == 0) && (n < |ds| ==> ds[n] != 0)
    ensures LeadingZeros(ds) == n
  {
    var m := LeadingZeros(ds);
    assert !(m < n) && !(n < m);
  }

  // ---- exactness ----

  lemma {:induction false} ValueOfZeros(ds: seq<digit>)
    ensures Value(ds) == 0 <==> LeadingZeros(ds) == |ds|
  {
    if ds != [] {
      var init, last := ds[..|ds| - 1], ds[|ds| - 1];
      ValueOfZeros(init);
      var m, n := LeadingZeros(ds), LeadingZeros(init);
      assert m < |init| ==> init[m] != 0;
      assert n < |init| ==> ds[n] != 0;
    }
  }

  lemma {:induction false} BigEndianZeros(n: nat, bs: seq<byte>)
    ensures BigEndian(Zeros(n) + bs) == BigEndian(bs)
    decreases |bs|, n
  {
    if bs != [] {
      assert (Zeros(n) + bs)[..n + |bs| - 1] == Zeros(n) + bs[..|bs| - 1];
      BigEndianZeros(n, bs[..|bs| - 1]);
    } else if n > 0 {
      assert (Zeros(n) + bs)[..n - 1] == Zeros(n - 1) + [];
      BigEndianZeros(n - 1, []);
    }
  }

  /**
   The bytes denote the same number as the string. Their count is the leading '1's plus the shortest byte length
   exactly when the string has some other character; a string of '1's only gets one byte more.
   */
  lemma {:induction false} DecodingIsExact(ds: seq<digit>)
    ensures BigEndian(DecodedBytes(ds)) == Value(ds)
    ensures |DecodedBytes(ds)| == LeadingZeros(ds) + |Minimal(Value(ds))| + (if Value(ds) == 0 then 1 else 0)
    ensures |DecodedBytes(ds)| == LeadingZeros(ds) + |Minimal(Value(ds))| <==> exists i :: 0 <= i < |ds| && ds[i] != 0
  {
    ValueOfZeros(ds);
    BigEndianZeros(LeadingZeros(ds), if Value(ds) == 0 then [0] else Minimal(Value(ds)));
    assert BigEndian([0]) == 0 by { assert [0][..0] == []; }
    if LeadingZeros(ds) < |ds| { assert ds[LeadingZeros(ds)] != 0; }
  }

  /** Digit strings without leading zeros are determined by their number. */
  lemma {:induction false} ValueDetermines(a: seq<digit>, b: seq<digit>)
    requires (a != [] ==> a[0] != 0) && (b != [] ==> b[0] != 0) && Value(a) == Value(b)
    ensures a == b
  {
    ValueOfZeros(a);
    ValueOfZeros(b);
    if a != [] && b != [] {
      var a', b' := a[..|a| - 1], b[..|b| - 1];
      assert a[|a| - 1] == b[|b| - 1] && Value(a') == Value(b');
      ValueDetermines(a', b');
      assert a == a' + [a[|a| - 1]] && b == b' + [b[|b| - 1]];
    }
  }

  lemma {:induction false} ValueSkipsZeros(ds: seq<digit>, n: nat)
    requires n <= |ds| && forall i :: 0 <= i < n ==> ds[i] == 0
    ensures Value(ds[n..]) == Value(ds)
  {
    if n == |ds| {
      var m := LeadingZeros(ds);
      ValueOfZeros(ds);
    } else {
      ValueSkipsZeros(ds[..|ds| - 1], n);
      assert ds[n..][..|ds| - n - 1] == ds[..|ds| - 1][n..];
    }
  }

  lemma LeadingZeroBytes(ds: seq<digit>)
    ensures LeadingZeros(DecodedBytes(ds)) == LeadingZeros(ds) + (if Value(ds) == 0 then 1 else 0)
  {
    var bs, n := DecodedBytes(ds), LeadingZeros(ds);
    var m := LeadingZeros(bs);
    assert forall i :: 0 <= i < n ==> bs[i] == 0;
    assert bs[n] == if Value(ds) == 0 then 0 else Minimal(Value(ds))[0];
    if Value(ds) == 0 { assert |bs| == n + 1; }
  }

  /** Different strings decode to different bytes. */
  lemma DecodingIsInjective(a: seq<digit>, b: seq<digit>)
    requires DecodedBytes(a) == DecodedBytes(b)
    ensures a == b
  {
    DecodingIsExact(a);
    DecodingIsExact(b);
    LeadingZeroBytes(a);
    LeadingZeroBytes(b);
    var n := LeadingZeros(a);
    ValueSkipsZeros(a, n);
    ValueSkipsZeros(b, n);
    ValueDetermines(a[n..], b[n..]);
    assert a == a[..n] + a[n..] && b == b[..n] + b[n..];
    assert a[..n] == b[..n];
  }

  // ---- strings ----

  function CharOf(d: digit): (c: char)
  {
    if d < 9 then '1' + d as char
    else if d < 17 then 'A' + (d - 9) as char
    else if d < 22 then 'J' + (d - 17) as char
    else if d < 33 then 'P' + (d - 22) as char
    else if d < 44 then 'a' + (d - 33) as char
    else 'm' + (d - 44) as char
  }

  lemma AlphabetAt(d: digit)
    ensures |BASE58_ALPHABET| == 58 && BASE58_ALPHABET[d] == CharOf(d)
  {
  }

  /** The characters of the alphabet are distinct, so looking one up gives its digit. */
  lemma IndexOfChar(d: digit)
    ensures IndexIn(BASE58_ALPHABET, CharOf(d)) == d
  {
    AlphabetAt(d);
    LookUp(BASE58_ALPHABET, d);
    AlphabetAt(IndexIn(BASE58_ALPHABET, CharOf(d)));
    CharDetermines(d, IndexIn(BASE58_ALPHABET, CharOf(d)));
  }

  predicate IsBase58Char(c: char) {
    ('1' <= c <= '9' || 'A' <= c <= 'Z' || 'a' <= c <= 'z') && c != 'I' && c != 'O' && c != 'l'
  }

  /** Digits and letters without 0, I, O and l, worth more the later they come in character order. */
  lemma {:induction false} AlphabetIsBase58(c: char)
    ensures IndexIn(BASE58_ALPHABET, c) >= 0 <==> IsBase58Char(c)
    ensures forall d: digit, e: digit :: d < e ==> CharOf(d) < CharOf(e)
  {
    var i := IndexIn(BASE58_ALPHABET, c);
    if i >= 0 { AlphabetAt(i); }
    if IsBase58Char(c) { IndexOfChar(DigitOf(c)); }
  }

  /** Counts the characters before this one. */
  function DigitOf(c: char): (d: digit)
    requires IsBase58Char(c)
    ensures CharOf(d) == c
  {
    if c <= '9' then (c - '1') as int
    else if c <= 'H' then (c - 'A') as int + 9
    else if c <= 'N' then (c - 'J') as int + 17
    else if c <= 'Z' then (c - 'P') as int + 22
    else if c <= 'k' then (c - 'a') as int + 33
    else (c - 'm') as int + 44
  }

  lemma LookUp(alphabet: string, d: digit)
    requires |alphabet| == 58 && alphabet[d] == CharOf(d)
    ensures 0 <= IndexIn(alphabet, CharOf(d)) < 58
  {
    assert alphabet[d] in alphabet;
  }

  lemma CharDetermines(d: digit, e: digit)
    requires CharOf(d) == CharOf(e)
    ensures d == e
  {
  }

  function StringOf(ds: seq<digit>): (s: string)
    ensures |s| == |ds|
  {
    if ds == [] then "" else StringOf(ds[..|ds| - 1]) + [CharOf(ds[|ds| - 1])]
  }

  lemma {:induction false} DigitsOfString(ds: seq<digit>)
    ensures Digits(StringOf(ds)) == Some(ds)
  {
    if ds != [] {
      DigitsOfString(ds[..|ds| - 1]);
      IndexOfChar(ds[|ds| - 1]);
      assert StringOf(ds)[..|ds| - 1] == StringOf(ds[..|ds| - 1]);
      assert ds == ds[..|ds| - 1] + [ds[|ds| - 1]];
    }
  }

  lemma {:induction false} DigitsDetermine(s: string, t: string)
    requires Digits(s).Some? && Digits(s) == Digits(t)
    ensures s == t
  {
    if s != [] {
      var s', t' := s[..|s| - 1], t[..|t| - 1];
      assert Digits(s).value[..|s| - 1] == Digits(s').value && Digits(t).value[..|t| - 1] == Digits(t').value;
      DigitsDetermine(s', t');
      assert s == s' + [s[|s| - 1]] && t == t' + [t[|t| - 1]];
    }
  }

  /** Different strings over the alphabet decode to different bytes. */
  lemma {:induction false} Base58IsInjective(s: string, t: string)
    requires Digits(s).Some? && Digits(t).Some? && DecodedBytes(Digits(s).value) == DecodedBytes(Digits(t).value)
    ensures s == t
  {
    DecodingIsInjective(Digits(s).value, Digits(t).value);
    DigitsDetermine(s, t);
  }

  function ToDigits(v: nat): (ds: seq<digit>)
    ensures Value(ds) == v && (ds != [] ==> ds[0] != 0) && (ds == [] <==> v == 0)
  {
    if v == 0 then []
    else
      var ds := ToDigits(v / 58) + [v % 58];
      assert ds[..|ds| - 1] == ToDigits(v / 58);
      ds
  }

  lemma {:induction false} MinimalOf(bs: seq<byte>)
    requires bs != [] ==> bs[0] != 0
    ensures Minimal(BigEndian(bs)) == bs && (bs != [] ==> BigEndian(bs) > 0)
  {
    if bs != [] {
      var init, last := bs[..|bs| - 1], bs[|bs| - 1];
      MinimalOf(init);
      assert BigEndian(bs) / 256 == BigEndian(init) && BigEndian(bs) % 256 == last;
      assert bs == init + [last];
    }
  }

  /** The base58 string of bytes that do not start with zero. */
  function Encode(bs: seq<byte>): (s: string) { StringOf(ToDigits(BigEndian(bs))) }

  /** Decoding inverts encoding. */
  lemma {:induction false} DecodeInvertsEncode(bs: seq<byte>)
    requires bs != [] && bs[0] != 0
    ensures Digits(Encode(bs)).Some? && DecodedBytes(Digits(Encode(bs)).value) == bs
  {
    var ds := ToDigits(BigEndian(bs));
    DigitsOfString(ds);
    MinimalOf(bs);
    LeadingAt(ds, 0);
    assert Zeros(0) + bs == bs;
  }

  // ---- memos ----

  type digest = d: seq<byte> | |d| == 32 witness seq(32, i => 0)

  /** Version, tag, content length and padded content. */
  function MemoData(content: seq<byte>): (data: seq<byte>)
    requires |content| <= 32
    ensures |data| == 35
  {
    [0x14, 0x01, |content|] + content + Zeros(32 - |content|)
  }

  /** The 39 bytes of a memo: its data and the first four bytes of the double hash of the data. */
  function MemoBytes(content: seq<byte>, sha256: seq<byte> -> digest): (raw: seq<byte>)
    requires |content| <= 32
    ensures |raw| == 39
  {
    var data := MemoData(content);
    data + sha256(sha256(data))[..4]
  }

  ghost predicate IsMemo(raw: seq<byte>, content: seq<byte>, sha256: seq<byte> -> digest) {
    |content| <= 32 && raw == MemoBytes(content, sha256)
  }

  /** Accepts exactly the memo layout and returns its content. */
  method DecodeTxMemo(memo: string, sha256: seq<byte> -> digest) returns (r: Option<seq<byte>>)
    ensures r.Some? ==> Digits(memo).Some? && IsMemo(DecodedBytes(Digits(memo).value), r.value, sha256)
    ensures r.None? && Digits(memo).Some? ==> forall content ::
              !IsMemo(DecodedBytes(Digits(memo).value), content, sha256)
  {
    var decoded := Base58Decode(memo);
    if decoded.None? { return None; }
    r := ParseMemo(decoded.value, sha256);
  }

  method ParseMemo(raw: seq<byte>, sha256: seq<byte> -> digest) returns (r: Option<seq<byte>>)
    ensures r.Some? ==> IsMemo(raw, r.value, sha256)
    ensures r.None? ==> forall content :: !IsMemo(raw, content, sha256)
  {
    if |raw| != 39 { return None; }
    if raw[0] != 0x14 { return None; }
    var data := raw[..35];
    var expected := sha256(sha256(data))[..4];
    assert forall content ::
      IsMemo(raw, content, sha256) ==> data == MemoData(content) && raw[35..] == expected by { MemoParts(raw, sha256); }
    for i := 0 to 4
      invariant forall j :: 0 <= j < i ==> raw[35 + j] == expected[j]
    {
      if raw[35 + i] != expected[i] {
        assert raw[35..][i] == raw[35 + i];
        return None;
      }
    }
    assert raw[35..] == expected;
    if data[1] != 0x01 { return None; }
    var length := data[2];
    if length > 32 { return None; }
    for i := 3 + length to 35
      invariant forall j :: 3 + length <= j < i ==> data[j] == 0
    {
      if data[i] != 0 {
        return None;
      }
    }
    r := Some(data[3..3 + length]);
    assert data == MemoData(r.value);
    assert raw == data + raw[35..];
  }

  /** The layout position by position. */
  predicate Layout(raw: seq<byte>, content: seq<byte>, sha256: seq<byte> -> digest) {
    && |raw| == 39 && |content| <= 32 && raw[0] == 20 && raw[1] == 1 && raw[2] == |content|
    && (forall i :: 0 <= i < 32 ==> raw[i + 3] == if i < |content| then content[i] else 0)
    && raw[35..] == sha256(sha256(raw[..35]))[..4]
  }

  lemma {:induction false} MemoLayout(raw: seq<byte>, content: seq<byte>, sha256: seq<byte> -> digest)
    ensures IsMemo(raw, content, sha256) <==> Layout(raw, content, sha256)
  {
    if IsMemo(raw, content, sha256) {
      MemoParts(raw, sha256);
      forall i | 0 <= i < 32 ensures raw[i + 3] == if i < |content| then content[i] else 0 {
        assert raw[i + 3] == raw[..35][i + 3];
      }
    }
    if Layout(raw, content, sha256) { LayoutData(raw, content, sha256); }
  }

  lemma {:induction false} LayoutData(raw: seq<byte>, content: seq<byte>, sha256: seq<byte> -> digest)
    requires Layout(raw, content, sha256)
    ensures IsMemo(raw, content, sha256)
  {
    var data := MemoData(content);
    forall j | 0 <= j < 35 ensures raw[j] == data[j] {
      if j >= 3 { assert raw[(j - 3) + 3] == if j - 3 < |content| then content[j - 3] else 0; }
    }
    assert raw[..35] == data;
    assert raw == raw[..35] + raw[35..];
  }

  lemma MemoParts(raw: seq<byte>, sha256: seq<byte> -> digest)
    requires |raw| == 39
    ensures forall content ::
              IsMemo(raw, content, sha256) ==>
                raw[..35] == MemoData(content) && raw[35..] == sha256(sha256(raw[..35]))[..4]
  {
    forall content | IsMemo(raw, content, sha256)
      ensures raw[..35] == MemoData(content) && raw[35..] == sha256(sha256(raw[..35]))[..4] {
      assert raw[..35] == MemoData(content);
    }
  }

  /** A memo determines its content, so decoding the base58 form of a memo gives the content back. */
  lemma MemoDetermines(a: seq<byte>, b: seq<byte>, sha256: seq<byte> -> digest)
    requires |a| <= 32 && |b| <= 32 && MemoBytes(a, sha256) == MemoBytes(b, sha256)
    ensures a == b
  {
    var raw := MemoBytes(a, sha256);
    assert raw[2] == |a| && raw[2] == |b|;
    assert raw[3..3 + |a|] == a && raw[3..3 + |b|] == b;
  }

  method MemoRoundTrip(content: seq<byte>, sha256: seq<byte> -> digest) returns (r: Option<seq<byte>>)
    requires |content| <= 32
    ensures r == Some(content)
  {
    DecodeInvertsEncode(MemoBytes(content, sha256));
    r := DecodeTxMemo(Encode(MemoBytes(content, sha256)), sha256);
    assert IsMemo(MemoBytes(content, sha256), content, sha256);
    MemoDetermines(r.value, content, sha256);
  }
}
