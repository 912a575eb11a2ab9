/** Callee tokens: `@jit:<hex path>:<hex name>:<fingerprint>` as src/jit_function_arg.cpp (lines 49-64
    and 113-116) prints them and scripts/standalone_compile.py (lines 258-283) reads them. Paths and
    names are byte strings. */
module JitToken {
  import opened Numerals
  import opened Signature

  const WIDTH: nat := 16

  function HexDigit(d: int): (c: char)
    requires 0 <= d < 16
    ensures LowerHex(c) && HexValue(c) == d
  {
    if d < 10 then ('0' as int + d) as char else ('a' as int + (d - 10)) as char
  }

  predicate LowerHex(c: char) {
    '0' <= c <= '9' || 'a' <= c <= 'f'
  }

  predicate AnyHex(c: char) {
    LowerHex(c) || 'A' <= c <= 'F'
  }

  function HexValue(c: char): (d: int)
    requires AnyHex(c)
    ensures 0 <= d < 16
  {
    if c <= '9' then c as int - '0' as int
    else if c <= 'F' then c as int - 'A' as int + 10
    else c as int - 'a' as int + 10
  }

  // ---- printing

  function HexEncode(bytes: seq<byte>): (s: string)
    ensures |s| == 2 * |bytes| && forall i :: 0 <= i < |s| ==> LowerHex(s[i])
  {
    if bytes == [] then "" else HexEncode(bytes[..|bytes| - 1]) + HexByte(bytes[|bytes| - 1])
  }

  function HexByte(b: byte): (s: string)
    ensures |s| == 2 && LowerHex(s[0]) && LowerHex(s[1])
  {
    [HexDigit(b / 16), HexDigit(b % 16)]
  }

  method HexEncodeLoop(bytes: seq<byte>) returns (encoded: string)
    ensures encoded == HexEncode(bytes)
  {
    encoded := "";
    for i := 0 to |bytes|
      invariant encoded == HexEncode(bytes[..i])
    {
      assert bytes[..i + 1][..i] == bytes[..i];
      ghost var before := encoded;
      encoded := encoded + [HexDigit(bytes[i] / 16)];
      encoded := encoded + [HexDigit(bytes[i] % 16)];
      assert encoded == before + HexByte(bytes[i]);
    }
    assert bytes[..|bytes|] == bytes;
  }

  // std::hex output.
  function HexNat(v: nat): (s: string)
    ensures s != [] && forall i :: 0 <= i < |s| ==> LowerHex(s[i])
  {
    if v < 16 then [HexDigit(v)] else HexNat(v / 16) + [HexDigit(v % 16)]
  }

  // setw and setfill('0').
  function ZeroPad(s: string, width: nat): (r: string)
    decreases width - |s|
  {
    if |s| >= width then s else ZeroPad(['0'] + s, width)
  }

  function HexU64(v: nat): string {
    ZeroPad(HexNat(v), WIDTH)
  }

  function SignatureToken(path: seq<byte>, name: seq<byte>, fingerprint: string): string {
    "@jit:" + HexEncode(path) + ":" + HexEncode(name) + ":" + fingerprint
  }

  // ---- reading

  // str.split(":").
  function SplitOn(c: char, s: string): (fields: seq<string>)
    ensures fields != []
  {
    if s == [] then [[]]
    else
      var rest := SplitOn(c, s[1..]);
      if s[0] == c then [[]] + rest else [[s[0]] + rest[0]] + rest[1..]
  }

  function HexDecode(s: string): (r: Option<seq<byte>>)
    ensures r.Some? ==> |s| == 2 * |r.value|
  {
    if s == [] then Some([])
    else if |s| < 2 || !AnyHex(s[|s| - 2]) || !AnyHex(s[|s| - 1]) then None
    else
      var front := HexDecode(s[..|s| - 2]);
      if front.None? then None
      else Some(front.value + [HexValue(s[|s| - 2]) * 16 + HexValue(s[|s| - 1])])
  }

  // _decode_jitfunction_field; `utf8` stands for a successful bytes.decode("utf-8").
  function DecodeField(utf8: seq<byte> -> bool, value: string): Option<seq<byte>> {
    if value == [] then None
    else
      var bytes := HexDecode(value);
      if bytes.None? || !utf8(bytes.value) then None else bytes
  }

  predicate Fingerprint(s: string) {
    |s| == WIDTH && forall i :: 0 <= i < |s| ==> LowerHex(s[i])
  }

  datatype Callee = Callee(path: seq<byte>, name: seq<byte>, fingerprint: string)

  function ParseToken(utf8: seq<byte> -> bool, token: string): Option<Callee> {
    var fields := SplitOn(':', token);
    if |fields| != 4 || fields[0] != "@jit" then None
    else
      var path, name := DecodeField(utf8, fields[1]), DecodeField(utf8, fields[2]);
      if path.None? || name.None? || !Fingerprint(fields[3]) then None
      else if path.value[0] != '/' as int then None
      else Some(Callee(path.value, name.value, fields[3]))
  }

  // ---- round trips

  lemma {:induction false} SplitOnWord(c: char, w: string, rest: string)
    requires c !in w
    ensures SplitOn(c, w + [c] + rest) == [w] + SplitOn(c, rest)
  {
    var s := w + [c] + rest;
    if w == [] {
      assert s[1..] == rest;
    } else {
      SplitOnWord(c, w[1..], rest);
      assert s[1..] == w[1..] + [c] + rest;
      assert [w[0]] + w[1..] == w;
    }
  }

  lemma {:induction false} SplitOnLast(c: char, w: string)
    requires c !in w
    ensures SplitOn(c, w) == [w]
  {
    if w != [] {
      SplitOnLast(c, w[1..]);
      assert [w[0]] + w[1..] == w;
    }
  }

  lemma HexRoundTrip(bytes: seq<byte>)
    ensures HexDecode(HexEncode(bytes)) == Some(bytes)
  {
    HexDecodes(bytes, HexEncode(bytes));
  }

  lemma {:induction false} HexDecodes(bytes: seq<byte>, s: string)
    requires s == HexEncode(bytes)
    ensures HexDecode(s) == Some(bytes)
  {
    if bytes != [] {
      var front, last := bytes[..|bytes| - 1], bytes[|bytes| - 1];
      var t := HexEncode(front);
      HexDecodes(front, t);
      HexStep(t, front, last);
      assert front + [last] == bytes && s == t + HexByte(last);
    }
  }

  lemma HexStep(s: string, front: seq<byte>, last: byte)
    requires HexDecode(s) == Some(front)
    ensures HexDecode(s + HexByte(last)) == Some(front + [last])
  {
    var t := s + HexByte(last);
    assert t[..|t| - 2] == s && t[|t| - 2..] == HexByte(last);
  }

  lemma NoColonInHex(s: string)
    requires forall i :: 0 <= i < |s| ==> LowerHex(s[i])
    ensures ':' !in s
  {
  }

  lemma TokenFields(path: seq<byte>, name: seq<byte>, fingerprint: string)
    requires Fingerprint(fingerprint)
    ensures SplitOn(':', SignatureToken(path, name, fingerprint))
         == ["@jit", HexEncode(path), HexEncode(name), fingerprint]
  {
    var p, n := HexEncode(path), HexEncode(name);
    NoColonInHex(p);
    NoColonInHex(n);
    NoColonInHex(fingerprint);
    var rest2 := n + [':'] + fingerprint;
    var rest1 := p + [':'] + rest2;
    assert SignatureToken(path, name, fingerprint) == "@jit" + [':'] + rest1;
    SplitOnWord(':', "@jit", rest1);
    SplitOnWord(':', p, rest2);
    SplitOnWord(':', n, fingerprint);
    SplitOnLast(':', fingerprint);
  }

  /** A printed token is read back as the same callee, exactly when the path is absolute and both
      strings are non-empty UTF-8; otherwise the reader refuses it. */
  lemma TokenRoundTrip(utf8: seq<byte> -> bool, path: seq<byte>, name: seq<byte>, fingerprint: string)
    requires Fingerprint(fingerprint)
    ensures ParseToken(utf8, SignatureToken(path, name, fingerprint))
         == if path != [] && name != [] && utf8(path) && utf8(name) && path[0] == '/' as int
            then Some(Callee(path, name, fingerprint)) else None
  {
    TokenFields(path, name, fingerprint);
    HexRoundTrip(path);
    HexRoundTrip(name);
  }

  /** The token is a token of the signature: it survives joining and splitting in both readers. */
  lemma TokenIsWellFormed(space: Spaces, path: seq<byte>, name: seq<byte>, fingerprint: string)
    requires Neutral(space) && Fingerprint(fingerprint)
    ensures WellFormed(space, SignatureToken(path, name, fingerprint))
  {
    PlainIsWellFormed(space, SignatureToken(path, name, fingerprint));
  }

  // ---- fingerprints

  function ReadHex(s: string): nat
    requires forall i :: 0 <= i < |s| ==> LowerHex(s[i])
  {
    if s == [] then 0 else ReadHex(s[..|s| - 1]) * 16 + HexValue(s[|s| - 1])
  }

  function Pow16(k: nat): nat {
    if k == 0 then 1 else 16 * Pow16(k - 1)
  }

  lemma {:induction false} HexNatReads(v: nat)
    ensures ReadHex(HexNat(v)) == v
  {
    if v < 16 {
      assert HexNat(v)[..0] == [];
    } else {
      HexNatReads(v / 16);
      assert HexNat(v)[..|HexNat(v)| - 1] == HexNat(v / 16);
    }
  }

  lemma {:induction false} HexNatLength(v: nat, k: nat)
    requires k > 0 && v < Pow16(k)
    ensures |HexNat(v)| <= k
  {
    if v >= 16 {
      HexNatLength(v / 16, k - 1);
    }
  }

  lemma {:induction false} LeadingZero(s: string)
    requires forall i :: 0 <= i < |s| ==> LowerHex(s[i])
    ensures ReadHex(['0'] + s) == ReadHex(s)
  {
    var t := ['0'] + s;
    if s == [] {
      assert t[..0] == [];
    } else {
      LeadingZero(s[..|s| - 1]);
      assert t[..|t| - 1] == ['0'] + s[..|s| - 1];
    }
  }

  lemma {:induction false} ZeroPadReads(s: string, width: nat)
    requires |s| <= width && forall i :: 0 <= i < |s| ==> LowerHex(s[i])
    ensures |ZeroPad(s, width)| == width
    ensures forall i :: 0 <= i < width ==> LowerHex(ZeroPad(s, width)[i])
    ensures ReadHex(ZeroPad(s, width)) == ReadHex(s)
    decreases width - |s|
  {
    if |s| < width {
      LeadingZero(s);
      ZeroPadReads(['0'] + s, width);
    }
  }

  /** Every 64-bit hash prints as a 16-digit fingerprint that the reader accepts and that still says
      which hash it was: tokens of different sources differ. */
  lemma FingerprintOfHash(v: nat)
    requires v < 0x1_0000_0000_0000_0000
    ensures Fingerprint(HexU64(v)) && ReadHex(HexU64(v)) == v
  {
    assert Pow16(4) == 0x1_0000;
    assert Pow16(8) == 0x1_0000_0000;
    assert Pow16(12) == 0x1_0000_0000_0000;
    assert Pow16(16) == 0x1_0000_0000_0000_0000;
    HexNatLength(v, WIDTH);
    HexNatReads(v);
    ZeroPadReads(HexNat(v), WIDTH);
  }
}
