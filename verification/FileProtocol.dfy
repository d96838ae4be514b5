/** The header and footer around a file on a diode stream (src/aux/file/protocol.rs). */
module FileProtocol {
  import opened Bytes
  import opened Streams

  /** The name is UTF-8; its length in bytes travels as a 64-bit number. */
  datatype Header = Header(name: seq<u8>, mode: u32, length: u64)

  type u128 = x: nat | x < 0x1_0000_0000_0000_0000_0000_0000_0000_0000

  const LENGTH_SIZE := 8
  const MODE_SIZE := 4
  const FOOTER_SIZE := 16

  datatype HeaderError = Broken(e: IoError) | NameNotUtf8

  predicate Continuation(b: u8) {
    0x80 <= b <= 0xBF
  }

  /** The length of the well-formed character at the start of `s`, or zero (table 3-7 of the Unicode standard). */
  function CharacterLength(s: seq<u8>): (n: nat)
    requires s != []
    ensures n <= |s|
  {
    var a := s[0];
    if a <= 0x7F then 1
    else if |s| < 2 || a < 0xC2 || a > 0xF4 then 0
    else if a <= 0xDF then (if Continuation(s[1]) then 2 else 0)
    else if |s| < 3 || !Continuation(s[2]) then 0
    else if a <= 0xEF then
      (if (if a == 0xE0 then 0xA0 else 0x80) <= s[1] <= (if a == 0xED then 0x9F else 0xBF) then 3 else 0)
    else if |s| < 4 || !Continuation(s[3]) then 0
    else if (if a == 0xF0 then 0x90 else 0x80) <= s[1] <= (if a == 0xF4 then 0x8F else 0xBF) then 4 else 0
  }

  predicate Utf8(s: seq<u8>)
    decreases |s|
  {
    s == [] || (CharacterLength(s) > 0 && Utf8(s[CharacterLength(s)..]))
  }

  /** A Unicode scalar value: a code point that is not a surrogate. */
  predicate Scalar(c: nat) {
    c < 0xD800 || 0xE000 <= c < 0x11_0000
  }

  /** UTF-8 as section 3 of RFC 3629 defines it: six bits a continuation byte. */
  function Encoded(c: nat): seq<u8>
    requires Scalar(c)
  {
    if c < 0x80 then [c]
    else if c < 0x800 then [0xC0 + c / 0x40, 0x80 + c % 0x40]
    else if c < 0x1_0000 then [0xE0 + c / 0x1000, 0x80 + c / 0x40 % 0x40, 0x80 + c % 0x40]
    else [0xF0 + c / 0x4_0000, 0x80 + c / 0x1000 % 0x40, 0x80 + c / 0x40 % 0x40, 0x80 + c % 0x40]
  }

  function EncodedAll(cs: seq<nat>): seq<u8>
    requires forall c :: c in cs ==> Scalar(c)
  {
    if cs == [] then [] else Encoded(cs[0]) + EncodedAll(cs[1..])
  }

  lemma EncodedIsCharacter(c: nat, rest: seq<u8>)
    requires Scalar(c)
    ensures CharacterLength(Encoded(c) + rest) == |Encoded(c)| > 0
  {}

  /** The scalar value of the character at the start. */
  function Decoded(s: seq<u8>): nat
    requires s != [] && CharacterLength(s) > 0
  {
    var n := CharacterLength(s);
    if n == 1 then s[0]
    else if n == 2 then (s[0] as int - 0xC0) * 0x40 + (s[1] as int - 0x80)
    else if n == 3 then (s[0] as int - 0xE0) * 0x1000 + (s[1] as int - 0x80) * 0x40 + (s[2] as int - 0x80)
    else (s[0] as int - 0xF0) * 0x4_0000 + (s[1] as int - 0x80) * 0x1000 + (s[2] as int - 0x80) * 0x40
         + (s[3] as int - 0x80)
  }

  /** A digit to the base 64, and what precedes it. */
  lemma LastSix(high: nat, low: nat)
    requires low < 0x40
    ensures (high * 0x40 + low) / 0x40 == high && (high * 0x40 + low) % 0x40 == low
  {}

  lemma TwoBytes(a: u8, b: u8)
    requires 0xC2 <= a <= 0xDF && Continuation(b)
    ensures var c := (a - 0xC0) * 0x40 + (b - 0x80); 0x80 <= c < 0x800 && Encoded(c) == [a, b]
  {
    LastSix(a - 0xC0, b - 0x80);
  }

  lemma ThreeBytes(a: u8, b: u8, d: u8)
    requires 0xE0 <= a <= 0xEF && Continuation(b) && Continuation(d)
    requires (a == 0xE0 ==> b >= 0xA0) && (a == 0xED ==> b <= 0x9F)
    ensures var c := (a - 0xE0) * 0x1000 + (b - 0x80) * 0x40 + (d - 0x80);
            0x800 <= c < 0x1_0000 && Scalar(c) && Encoded(c) == [a, b, d]
  {
    var high := (a - 0xE0) * 0x40 + (b - 0x80);
    LastSix(a - 0xE0, b - 0x80);
    LastSix(high, d - 0x80);
    var c := high * 0x40 + (d - 0x80);
    assert c / 0x1000 == c / 0x40 / 0x40;
  }

  lemma FourBytes(a: u8, b: u8, d: u8, e: u8)
    requires 0xF0 <= a <= 0xF4 && Continuation(b) && Continuation(d) && Continuation(e)
    requires (a == 0xF0 ==> b >= 0x90) && (a == 0xF4 ==> b <= 0x8F)
    ensures var c := (a - 0xF0) * 0x4_0000 + (b - 0x80) * 0x1000 + (d - 0x80) * 0x40 + (e - 0x80);
            0x1_0000 <= c < 0x11_0000 && Encoded(c) == [a, b, d, e]
  {
    var top := (a - 0xF0) * 0x40 + (b - 0x80);
    var high := top * 0x40 + (d - 0x80);
    var c := high * 0x40 + (e - 0x80);
    LastSix(a - 0xF0, b - 0x80);
    LastSix(top, d - 0x80);
    LastSix(high, e - 0x80);
    assert c / 0x1000 == c / 0x40 / 0x40 && c / 0x4_0000 == c / 0x40 / 0x40 / 0x40;
  }

  lemma CharacterIsEncoded(s: seq<u8>)
    requires s != [] && CharacterLength(s) > 0
    ensures Scalar(Decoded(s)) && s[..CharacterLength(s)] == Encoded(Decoded(s))
  {
    var n := CharacterLength(s);
    if n == 1 {
      assert s[..1] == [s[0]];
    } else if n == 2 {
      TwoBytes(s[0], s[1]);
      assert s[..2] == [s[0], s[1]];
    } else if n == 3 {
      ThreeBytes(s[0], s[1], s[2]);
      assert s[..3] == [s[0], s[1], s[2]];
    } else {
      FourBytes(s[0], s[1], s[2], s[3]);
      assert s[..4] == [s[0], s[1], s[2], s[3]];
    }
  }

  /** Exactly the sequences of encoded scalar values are accepted. */
  lemma {:induction false} Utf8IsEncoded(s: seq<u8>) returns (cs: seq<nat>)
    requires Utf8(s)
    ensures (forall c :: c in cs ==> Scalar(c)) && EncodedAll(cs) == s
    decreases |s|
  {
    if s == [] {
      cs := [];
    } else {
      var n := CharacterLength(s);
      var rest := Utf8IsEncoded(s[n..]);
      CharacterIsEncoded(s);
      cs := [Decoded(s)] + rest;
      assert cs[1..] == rest;
      assert s == s[..n] + s[n..];
    }
  }

  lemma {:induction false} EncodedIsUtf8(cs: seq<nat>)
    requires forall c :: c in cs ==> Scalar(c)
    ensures Utf8(EncodedAll(cs))
  {
    if cs == [] {
    } else {
      EncodedIsUtf8(cs[1..]);
      EncodedIsCharacter(cs[0], EncodedAll(cs[1..]));
      var s := EncodedAll(cs);
      assert s[|Encoded(cs[0])|..] == EncodedAll(cs[1..]);
    }
  }

  ghost predicate IsText(s: seq<u8>) {
    exists cs: seq<nat> :: (forall c :: c in cs ==> Scalar(c)) && EncodedAll(cs) == s
  }

  lemma Utf8IsText(s: seq<u8>)
    ensures Utf8(s) <==> IsText(s)
  {
    if Utf8(s) {
      var cs := Utf8IsEncoded(s);
    }
    if IsText(s) {
      var cs: seq<nat> :| (forall c :: c in cs ==> Scalar(c)) && EncodedAll(cs) == s;
      EncodedIsUtf8(cs);
    }
  }

  /** The length of the name fits in its field. */
  predicate Representable(h: Header) {
    |h.name| < 0x1_0000_0000_0000_0000
  }

  function HeaderBytes(h: Header): seq<u8>
    requires Representable(h)
  {
    Pow256Values();
    ToLe(|h.name|, LENGTH_SIZE) + h.name + ToLe(h.mode, MODE_SIZE) + ToLe(h.length, LENGTH_SIZE)
  }

  function FooterBytes(hash: u128): (s: seq<u8>)
    ensures |s| == FOOTER_SIZE
  {
    Pow256Values();
    ToLe(hash, FOOTER_SIZE)
  }

  function ParseFooter(s: seq<u8>): u128
    requires |s| == FOOTER_SIZE
  {
    Pow256Values();
    FromLe(s)
  }

  /** A header at the start of a stream, and what follows it. The name is checked before the rest is read. */
  function ParseHeader(s: seq<u8>): Result<(Header, seq<u8>), HeaderError> {
    Pow256Values();
    if |s| < 8 then Failure(Broken(UnexpectedEof)) else
    var n := FromLe(s[..8]);
    if |s| < 8 + n then Failure(Broken(UnexpectedEof)) else
    if !Utf8(s[8..8 + n]) then Failure(NameNotUtf8) else
    var t := s[8 + n..];
    if |t| < 12 then Failure(Broken(UnexpectedEof)) else
    Success((Header(s[8..8 + n], FromLe(t[..4]), FromLe(t[4..12])), t[12..]))
  }

  lemma Fields(a: seq<u8>, b: seq<u8>, c: seq<u8>, d: seq<u8>, e: seq<u8>)
    requires |a| == 8 && |c| == 4 && |d| == 8
    ensures var s := a + b + c + d + e;
            var t := s[8 + |b|..];
            s[..8] == a && s[8..8 + |b|] == b && t[..4] == c && t[4..12] == d && t[12..] == e
  {
    assert (a + b + c + d + e)[8 + |b|..] == c + d + e;
  }

  /** The format of a header: length of the name, name, mode, length of the file, all little-endian. */
  lemma HeaderLayout(h: Header)
    requires Representable(h)
    ensures var s, n := HeaderBytes(h), |h.name|;
            && |s| == n + 20
            && LittleEndian(s[..8], n) && s[8..8 + n] == h.name
            && LittleEndian(s[8 + n..12 + n], h.mode) && LittleEndian(s[12 + n..20 + n], h.length)
  {
    Pow256Values();
    var s, n := HeaderBytes(h), |h.name|;
    var a, c, d := ToLe(n, LENGTH_SIZE), ToLe(h.mode, MODE_SIZE), ToLe(h.length, LENGTH_SIZE);
    ToLeIsLittleEndian(n, LENGTH_SIZE);
    ToLeIsLittleEndian(h.mode, MODE_SIZE);
    ToLeIsLittleEndian(h.length, LENGTH_SIZE);
    assert s[..8] == a && s[8..8 + n] == h.name && s[8 + n..12 + n] == c && s[12 + n..20 + n] == d;
  }

  lemma FooterLayout(hash: u128)
    ensures |FooterBytes(hash)| == 16 && LittleEndian(FooterBytes(hash), hash)
  {
    Pow256Values();
    ToLeIsLittleEndian(hash, FOOTER_SIZE);
  }

  lemma HeaderRoundTrip(h: Header, rest: seq<u8>)
    requires Representable(h) && Utf8(h.name)
    ensures ParseHeader(HeaderBytes(h) + rest) == Success((h, rest))
  {
    Pow256Values();
    var s := HeaderBytes(h) + rest;
    var n := |h.name|;
    LeRoundTrip(n, LENGTH_SIZE);
    LeRoundTrip(h.mode, MODE_SIZE);
    LeRoundTrip(h.length, LENGTH_SIZE);
    Fields(ToLe(n, LENGTH_SIZE), h.name, ToLe(h.mode, MODE_SIZE), ToLe(h.length, LENGTH_SIZE), rest);
  }

  /** What parses is exactly what would have been serialised. */
  lemma HeaderRoundTripBack(s: seq<u8>)
    requires ParseHeader(s).Success?
    ensures var (h, rest) := ParseHeader(s).value; Representable(h) && Utf8(h.name) && s == HeaderBytes(h) + rest
  {
    Pow256Values();
    var n := |ParseHeader(s).value.0.name|;
    var t := s[8 + n..];
    FieldBack(s[..8], LENGTH_SIZE);
    FieldBack(t[..4], MODE_SIZE);
    FieldBack(t[4..12], LENGTH_SIZE);
    Cut(s, n);
  }

  lemma FieldBack(s: seq<u8>, width: nat)
    requires |s| == width
    ensures ToLe(FromLe(s), width) == s
  {
    LeRoundTripBack(s);
  }

  lemma Cut(s: seq<u8>, n: nat)
    requires 8 + n + 12 <= |s|
    ensures var t := s[8 + n..]; s == s[..8] + s[8..8 + n] + t[..4] + t[4..12] + t[12..]
  {
    var t := s[8 + n..];
    assert t == t[..4] + t[4..12] + t[12..];
  }

  /** A bad name is refused however the stream goes on. */
  lemma BadNameExtends(s: seq<u8>, more: seq<u8>)
    requires ParseHeader(s) == Failure(NameNotUtf8)
    ensures ParseHeader(s + more) == Failure(NameNotUtf8)
  {
    Pow256Values();
    var n := FromLe(s[..8]);
    assert (s + more)[..8] == s[..8] && (s + more)[8..8 + n] == s[8..8 + n];
  }

  lemma FooterRoundTrip(hash: u128)
    ensures ParseFooter(FooterBytes(hash)) == hash
  {
    Pow256Values();
    LeRoundTrip(hash, FOOTER_SIZE);
  }

  /** `Header::serialize_to`. */
  method WriteHeader(h: Header, w: Writer) returns (ok: bool)
    requires Representable(h)
    modifies w
    ensures w.broken == (old(w.broken) || !ok)
    ensures old(w.written) <= w.written <= old(w.written) + HeaderBytes(h)
    ensures ok ==> w.written == old(w.written) + HeaderBytes(h)
  {
    Pow256Values();
    ghost var goal := w.written + HeaderBytes(h);
    var a, b, c, d := ToLe(|h.name|, LENGTH_SIZE), h.name, ToLe(h.mode, MODE_SIZE), ToLe(h.length, LENGTH_SIZE);
    assert goal == w.written + a + b + c + d;
    ok := w.WriteAll(a);
    if !ok { return; }
    ok := w.WriteAll(b);
    if !ok { return; }
    ok := w.WriteAll(c);
    if !ok { return; }
    ok := w.WriteAll(d);
  }

  /** `Header::deserialize_from`. */
  method ReadHeader(r: Reader) returns (h: Result<Header, HeaderError>)
    modifies r
    ensures r.broken == (old(r.broken) || h == Failure(Broken(Io)))
    ensures h.Success? ==> ParseHeader(old(r.rest)) == Success((h.value, r.rest))
    ensures h.Failure? && h.error != Broken(Io) ==> ParseHeader(old(r.rest)) == Failure(h.error)
  {
    Pow256Values();
    ghost var s := r.rest;
    var lengthBytes := r.ReadExact(8);
    if lengthBytes.Failure? { return Failure(Broken(lengthBytes.error)); }
    var n := FromLe(lengthBytes.value);
    var name := r.ReadExact(n);
    if name.Failure? { return Failure(Broken(name.error)); }
    assert s[8..][..n] == s[8..8 + n] && s[8..][n..] == s[8 + n..];
    if !Utf8(name.value) { return Failure(NameNotUtf8); }
    ghost var t := s[8 + n..];
    var mode := r.ReadExact(4);
    if mode.Failure? { return Failure(Broken(mode.error)); }
    var length := r.ReadExact(8);
    if length.Failure? { return Failure(Broken(length.error)); }
    assert t[4..][..8] == t[4..12] && t[4..][8..] == t[12..];
    return Success(Header(name.value, FromLe(mode.value), FromLe(length.value)));
  }
}
