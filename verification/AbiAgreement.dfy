/** The emitter and the compiler agree on the kernel's parameters: which are runtime ones, what the constants
    are, and what may be assumed of the others. One packs values, the other reads the printed signature, and
    nothing but that text connects them. */
module AbiAgreement {
  import opened Numerals
  import opened Signature
  import opened JitToken
  import opened ParameterBuffer
  import opened ArgEmitter
  import SC = SignatureCompiler

  // A value is what a runtime parameter of the given Triton type expects in memory.
  predicate Fits(ty: string, v: Value) {
    if ty != [] && ty[0] == '*' then v.ctype == CPointer
    else if ty == "i1" then v.ctype == CBool
    else if ty == "i32" then
      v.ctype == CInt || (v.ctype == CLong && -0x8000_0000 <= Signed(v.bits, 8) < 0x8000_0000)
    else if ty == "u32" then v.ctype == CUint
    else if ty == "i64" then v.ctype == CLong
    else if ty == "u64" then v.ctype == CUlong
    else if ty == "fp32" then v.ctype == CFloat
    else ty == "fp64" && v.ctype == CDouble
  }

  ghost predicate FitAll(types: seq<string>, values: seq<Value>) {
    |types| == |values| && forall i :: 0 <= i < |types| ==> Fits(types[i], values[i])
  }

  // One slot: a constant has no value, a runtime parameter has exactly the values its types ask for.
  ghost predicate Agrees(c: Option<SC.Class>, values: seq<Value>) {
    c.Some? && match c.value
               case Constant(_) => values == []
               case Runtime(types, _, _) => FitAll(types, values)
  }

  // What C++'s types and constructors already guarantee about an argument.
  predicate ItemOk(item: Item) {
    match item
    case Tensor(_, address, _) => address < Pow256(8)
    case DevicePtr(_, address, _) => address < Pow256(8)
    case Scalar(number) => number.Some? ==> number.value.Valid()
    case Plainly(n) => n.Valid()
    case Text(_) => true
    case Absent => true
    case Present(inner) => ItemOk(inner)
    case Tuple(elements) =>
      elements != [] && forall i :: 0 <= i < |elements| ==> elements[i].Valid() && !elements[i].Truth?
    case Jit(path, name, fingerprint) => Fingerprint(fingerprint) && path != [] && name != [] && path[0] == '/' as int
  }

  // A specialization part that is read as a number.
  predicate NumberPart(py: SC.Python, part: string) {
    part != SC.RANGE32 && !SC.ReadConst(py, part).NoneConst?
  }

  // At most one range mark, and that on a pointer; none if one was seen before.
  predicate RangesReadable(pointer: bool, parts: seq<string>, seen: bool) {
    && (forall i :: 0 <= i < |parts| && parts[i] == SC.RANGE32 ==> pointer && !seen)
    && (forall i, j :: 0 <= i < j < |parts| ==> !(parts[i] == SC.RANGE32 && parts[j] == SC.RANGE32))
  }

  predicate OneOr16(py: SC.Python, part: string) {
    SC.ReadConst(py, part).Is(1) || SC.ReadConst(py, part).Is(16)
  }

  // At most one number, and that 1 or 16; none if one was seen before.
  predicate NumbersReadable(py: SC.Python, parts: seq<string>, seen: bool) {
    && (forall i :: 0 <= i < |parts| && NumberPart(py, parts[i]) ==> OneOr16(py, parts[i]) && !seen)
    && NumberOnce(py, parts)
  }

  predicate NumberOnce(py: SC.Python, parts: seq<string>) {
    forall i, j :: 0 <= i < j < |parts| ==> !(NumberPart(py, parts[i]) && NumberPart(py, parts[j]))
  }

  predicate HintIsOne(py: SC.Python, parts: seq<string>) {
    exists i :: 0 <= i < |parts| && NumberPart(py, parts[i]) && SC.ReadConst(py, parts[i]).Is(1)
  }

  // A text that calls itself a constant: by one of the two words, or by the hint that it is one.
  predicate SaysConstant(py: SC.Python, s: string) {
    var fields := SplitOn(':', s);
    var word, parts := fields[0], fields[1..];
    && SC.ParseTypeToken(py.space, word).Some?
    && RangesReadable(word != [] && word[0] == '*', parts, false) && NumbersReadable(py, parts, false)
    && (Trim(py.space, word) in {"nullopt", "constexpr"} || HintIsOne(py, parts))
  }

  // A string argument that does not look like a runtime parameter: any string for a constexpr parameter,
  // and for others one that calls itself a constant, unless it spoils the form of a callee.
  predicate Harmless(py: SC.Python, kind: ArgType, s: string) {
    if SC.IsJit(s) then ParseToken(py.utf8, s).Some? else kind == Constexpr || SaysConstant(py, s)
  }

  // The argument prints one whole token of the signature: strings may fail to.
  predicate Printable(space: Spaces, item: Item) {
    match item
    case Text(s) => WellFormed(space, s)
    case Present(inner) => Printable(space, inner)
    case _ => true
  }

  // The arguments on which both sides agree.
  predicate Sound(py: SC.Python, kind: ArgType, item: Item) {
    match item
    case Text(s) => WellFormed(py.space, s) && Harmless(py, kind, s)
    case Jit(path, name, _) => py.utf8(path) && py.utf8(name)
    case Present(inner) => Sound(py, kind, inner)
    case _ => true
  }

  // ---- reading printed tokens

  lemma PlainType(space: Spaces, base: string)
    requires Neutral(space) && base != [] && Plain(base)
    ensures SC.ParseTypeToken(space, base) == Some(SC.One(base))
  {
    PlainIsWellFormed(space, base);
  }

  // Hints after a type, as they are printed.
  function Tail(parts: seq<string>): string {
    if parts == [] then "" else ":" + parts[0] + Tail(parts[1..])
  }

  lemma TailOne(part: string)
    ensures Tail([part]) == ":" + part
  {
    assert [part][1..] == [];
    assert ":" + part + "" == ":" + part;
  }

  lemma TailTwo(part: string, next: string)
    ensures Tail([part, next]) == ":" + part + ":" + next
  {
    assert [part, next][1..] == [next];
    TailOne(next);
    assert ":" + part + (":" + next) == ":" + part + ":" + next;
  }

  predicate IsPart(part: string) {
    part == "1" || part == "16" || part == "range32"
  }

  predicate AllParts(parts: seq<string>) {
    forall i :: 0 <= i < |parts| ==> IsPart(parts[i])
  }

  // The hints that the emitter prints: at most one of 1 and 16, and for pointers a range.
  predicate HintParts(pointer: bool, parts: seq<string>) {
    || parts == []
    || (|parts| == 1 && (parts[0] == "1" || parts[0] == "16" || (pointer && parts[0] == "range32")))
    || (|parts| == 2 && pointer && parts[0] == "16" && parts[1] == "range32")
  }

  lemma HintPartsAre(pointer: bool, parts: seq<string>)
    requires HintParts(pointer, parts)
    ensures AllParts(parts)
  {
  }

  lemma {:induction false} TailPlain(parts: seq<string>)
    requires forall i :: 0 <= i < |parts| ==> Plain(parts[i])
    ensures Plain(Tail(parts))
  {
    if parts != [] {
      TailPlain(parts[1..]);
    }
  }

  lemma PartPlain(part: string)
    requires IsPart(part)
    ensures Plain(part) && ':' !in part
  {
  }

  lemma PartsPlain(parts: seq<string>)
    requires AllParts(parts)
    ensures Plain(Tail(parts)) && forall i :: 0 <= i < |parts| ==> ':' !in parts[i]
  {
    forall i | 0 <= i < |parts|
      ensures Plain(parts[i]) && ':' !in parts[i]
    {
      PartPlain(parts[i]);
    }
    TailPlain(parts);
  }

  lemma {:induction false} TailSplits(base: string, parts: seq<string>)
    requires ':' !in base && forall i :: 0 <= i < |parts| ==> ':' !in parts[i]
    ensures SplitOn(':', base + Tail(parts)) == [base] + parts
    decreases |parts|
  {
    if parts == [] {
      SplitOnLast(':', base);
      assert base + "" == base;
    } else {
      var rest := parts[0] + Tail(parts[1..]);
      TailSplits(parts[0], parts[1..]);
      SplitOnWord(':', base, rest);
      assert base + (":" + parts[0] + Tail(parts[1..])) == base + [':'] + rest;
      assert parts == [parts[0]] + parts[1..];
    }
  }

  lemma RangeRead(py: SC.Python, h: SC.Hints)
    requires !h.range
    ensures SC.ScanHints(py, true, ["range32"], h) == Some(h.(range := true))
  {
    assert ["range32"][1..] == [];
  }

  lemma NumeralReads(py: SC.Python, s: string)
    requires py.Valid() && SC.Numeral(s)
    ensures SC.ReadConst(py, s) == SC.IntConst(ReadDecimal(s))
  {
    if s[0] == '-' {
      assert AllDigits(s[1..]) && IsDigit(s[1..][0]);
    } else {
      assert IsDigit(s[0]);
    }
  }

  // The two numbers among the hints.
  lemma HintNumerals(py: SC.Python)
    requires py.Valid()
    ensures SC.ReadConst(py, "1") == SC.IntConst(1) && SC.ReadConst(py, "16") == SC.IntConst(16)
  {
    ReadShowInt(1);
    ReadShowInt(16);
    assert ShowInt(1) == "1" && ShowInt(16) == "16";
    NumeralReads(py, "1");
    NumeralReads(py, "16");
  }

  lemma NumberRead(py: SC.Python, pointer: bool, parts: seq<string>, part: string, n: int)
    requires SC.ReadConst(py, part) == SC.IntConst(n) && n in {1, 16} && |part| < |SC.RANGE32|
    ensures SC.ScanHints(py, pointer, [part] + parts, SC.Hints(false, None))
         == SC.ScanHints(py, pointer, parts, SC.Hints(false, Some(n)))
  {
    assert ([part] + parts)[1..] == parts;
  }

  // What the emitter's hints say.
  function HintsAre(parts: seq<string>): SC.Hints {
    SC.Hints("range32" in parts, if "1" in parts then Some(1) else if "16" in parts then Some(16) else None)
  }

  lemma HintsRead(py: SC.Python, pointer: bool, parts: seq<string>)
    requires py.Valid() && HintParts(pointer, parts)
    ensures SC.ScanHints(py, pointer, parts, SC.Hints(false, None)) == Some(HintsAre(parts))
  {
    HintNumerals(py);
    if |parts| == 1 {
      assert parts == [parts[0]] + [];
      if parts[0] == "1" {
        NumberRead(py, pointer, [], "1", 1);
      } else if parts[0] == "16" {
        NumberRead(py, pointer, [], "16", 16);
      } else {
        assert parts == ["range32"];
        RangeRead(py, SC.Hints(false, None));
      }
    } else if |parts| == 2 {
      NumberRead(py, pointer, ["range32"], "16", 16);
      RangeRead(py, SC.Hints(false, Some(16)));
      assert ["16"] + ["range32"] == parts;
    }
  }

  // The name of a type by itself.
  predicate BaseName(base: string) {
    base != [] && Plain(base) && ':' !in base && base[0] != '@' && base !in {"nullopt", "constexpr"}
  }

  lemma HintedIsToken(py: SC.Python, base: string, parts: seq<string>)
    requires py.Valid() && BaseName(base) && HintParts(base[0] == '*', parts)
    ensures WellFormed(py.space, base + Tail(parts)) && !SC.IsJit(base + Tail(parts))
  {
    HintPartsAre(base[0] == '*', parts);
    PartsPlain(parts);
    var token := base + Tail(parts);
    assert token[0] == base[0];
    assert |token| >= 5 ==> token[..5][0] == base[0];
    PlainIsWellFormed(py.space, token);
  }

  lemma ClassIs(py: SC.Python, token: string, base: string, parts: seq<string>, h: SC.Hints)
    requires BaseName(base) && !SC.IsJit(token) && SplitOn(':', token) == [base] + parts
    requires SC.ParseTypeToken(py.space, base) == Some(SC.One(base))
    requires SC.ScanHints(py, base[0] == '*', parts, SC.Hints(false, None)) == Some(h)
    ensures SC.ClassOf(py, false, token) == Some(HintedClass(base, h))
  {
    assert ([base] + parts)[1..] == parts;
  }

  // A named type with these hints.
  function HintedClass(base: string, h: SC.Hints): SC.Class {
    if h.hint == Some(1) then SC.Constant(SC.IntConst(1)) else SC.Runtime([base], h.hint == Some(16), h.range)
  }

  lemma HintedIsRead(py: SC.Python, base: string, parts: seq<string>)
    requires py.Valid() && BaseName(base) && HintParts(base[0] == '*', parts)
    ensures WellFormed(py.space, base + Tail(parts))
    ensures SC.ClassOf(py, false, base + Tail(parts)) == Some(HintedClass(base, HintsAre(parts)))
  {
    HintedIsToken(py, base, parts);
    HintPartsAre(base[0] == '*', parts);
    PartsPlain(parts);
    TailSplits(base, parts);
    PlainType(py.space, base);
    HintsRead(py, base[0] == '*', parts);
    ClassIs(py, base + Tail(parts), base, parts, HintsAre(parts));
  }

  // ---- numbers and pointers

  lemma WholeFits(t: CType, v: int)
    requires Whole(t, v).Valid()
    ensures Fits(NarrowTypeName(Whole(t, v)), Whole(t, v).AsValue())
    ensures Fits(TypeName(t), Whole(t, v).AsValue())
  {
    if t == CLong {
      SignedBits(v);
    }
  }

  lemma SignedBits(v: int)
    requires -0x8000_0000_0000_0000 <= v < 0x8000_0000_0000_0000
    ensures Signed(Bits(v, 8), 8) == v
  {
    assert Pow256(8) == 0x1_0000_0000_0000_0000;
  }

  lemma NumberFits(n: Number)
    requires n.Valid()
    ensures BaseName(NarrowTypeName(n)) && Fits(NarrowTypeName(n), n.AsValue())
  {
    if n.Whole? {
      WholeFits(n.ctype, n.v);
    }
  }

  // How many bytes a runtime parameter of a Triton type reads.
  function TypeWidth(ty: string): nat {
    if ty == "i1" then 1 else if ty in {"i32", "u32", "fp32"} then 4 else 8
  }

  // A parameter of this type that reads its bytes out of v gets n.
  predicate Delivers(ty: string, v: Value, n: Number) {
    var k := TypeWidth(ty);
    k <= |v.Bytes()| && var read := FromBytes(v.Bytes()[..k]);
                        match n
                        case Truth(b) => read == if b then 1 else 0
                        case Whole(_, x) => x == if ty != [] && ty[0] == 'i' then Signed(read, k) else read
                        case Fraction(_, bits, _) => read == bits && k == |v.Bytes()|
  }

  lemma PowersOf256()
    ensures Pow256(1) == 256 && Pow256(4) == 0x1_0000_0000 && Pow256(8) == 0x1_0000_0000_0000_0000
  {
  }

  lemma SignedDelivers(t: CType, x: int, ty: string)
    requires Whole(t, x).Valid() && t in {CInt, CLong} && (ty == TypeName(t) || ty == NarrowTypeName(Whole(t, x)))
    ensures Delivers(ty, Whole(t, x).AsValue(), Whole(t, x))
  {
    PowersOf256();
    SignedReadsBack(x, Size(t), TypeWidth(ty));
  }

  lemma AllBytes(n: nat, k: nat)
    requires n < Pow256(k)
    ensures FromBytes(ToBytes(n, k)[..k]) == n
  {
    BytesRoundTrip(n, k);
    assert ToBytes(n, k)[..k] == ToBytes(n, k);
  }

  lemma UnsignedDelivers(t: CType, x: int)
    requires Whole(t, x).Valid() && t in {CUint, CUlong}
    ensures Delivers(TypeName(t), Whole(t, x).AsValue(), Whole(t, x))
  {
    PowersOf256();
    assert Bits(x, Size(t)) == x;
    AllBytes(x, Size(t));
  }

  /** What is packed for a number is that number to whoever reads it as the type that was printed for it. */
  lemma NumberDelivers(n: Number, ty: string)
    requires n.Valid() && (ty == TypeName(n.AsValue().ctype) || ty == NarrowTypeName(n))
    ensures Delivers(ty, n.AsValue(), n)
  {
    if n.Whole? {
      if n.ctype in {CUint, CUlong} {
        UnsignedDelivers(n.ctype, n.v);
      } else {
        SignedDelivers(n.ctype, n.v, ty);
      }
    } else {
      PowersOf256();
      AllBytes(n.AsValue().bits, Size(n.AsValue().ctype));
    }
  }

  // Which numbers become the constant 1, and which are announced as divisible by 16.
  predicate TakenAsOne(backend: Backend, kind: ArgType, n: Number) {
    && kind in {Specialized, SpecializedNoAlignment} && backend != Npu
    && match n
       case Truth(b) => b
       case Whole(_, v) => v == 1
       case Fraction(_, _, _) => false
  }

  predicate TakenAsAligned(backend: Backend, kind: ArgType, n: Number) {
    && kind == Specialized && backend != Npu
    && match n
       case Truth(b) => !b
       case Whole(_, v) => v % 16 == 0
       case Fraction(_, _, _) => false
  }

  function NumberParts(backend: Backend, kind: ArgType, n: Number): seq<string> {
    if TakenAsAligned(backend, kind, n) then ["16"] else if TakenAsOne(backend, kind, n) then ["1"] else []
  }

  // Outside a constexpr slot, an emitted number is its type with at most one hint, and its value
  // unless the hint says that it is one.
  lemma NumberShape(backend: Backend, kind: ArgType, n: Number)
    requires kind != Constexpr
    ensures EmitNumber(backend, kind, n)
         == Emission(if TakenAsOne(backend, kind, n) then [] else [n.AsValue()],
                     NarrowTypeName(n) + Tail(NumberParts(backend, kind, n)))
  {
    TailOne("1");
    TailOne("16");
    var name := NarrowTypeName(n);
    assert name + "" == name;
  }

  // What the compiler makes of a constexpr number: the number. For a fraction, what Python reads in the
  // text that fmt prints.
  function NumberConst(py: SC.Python, n: Number): SC.Const {
    match n
    case Truth(b) => SC.BoolConst(b)
    case Whole(_, v) => SC.IntConst(v)
    case Fraction(_, _, text) => SC.ReadConst(py, text)
  }

  /** A printed constexpr number is read back as that number. */
  lemma FormatReads(py: SC.Python, n: Number)
    requires py.Valid() && n.Valid()
    ensures SC.ReadConst(py, n.Format()) == NumberConst(py, n)
  {
    if n.Whole? {
      ReadShowInt(n.v);
      ShowIntLength(n.v);
      NumeralReads(py, ShowInt(n.v));
    }
  }

  // The kernel gets this number, as a constant or packed, and what the compiler is told about it is true.
  ghost predicate NumberMeant(py: SC.Python, backend: Backend, kind: ArgType, n: Number, c: SC.Class,
                              values: seq<Value>) {
    if kind == Constexpr then c == SC.Constant(NumberConst(py, n)) && values == []
    else if TakenAsOne(backend, kind, n) then c == SC.Constant(SC.IntConst(1)) && values == []
    else
      && c == SC.Runtime([NarrowTypeName(n)], TakenAsAligned(backend, kind, n), false)
      && |values| == 1 && Delivers(NarrowTypeName(n), values[0], n)
  }

  lemma NumberAgrees(py: SC.Python, backend: Backend, kind: ArgType, n: Number)
    requires py.Valid() && n.Valid()
    ensures WellFormed(py.space, EmitNumber(backend, kind, n).token)
    ensures var c := SC.ClassOf(py, kind == Constexpr, EmitNumber(backend, kind, n).token);
            && Agrees(c, EmitNumber(backend, kind, n).values)
            && NumberMeant(py, backend, kind, n, c.value, EmitNumber(backend, kind, n).values)
  {
    if kind == Constexpr {
      FormatIsPlain(n);
      FormatReads(py, n);
      PlainIsWellFormed(py.space, n.Format());
    } else {
      RuntimeAgrees(py, backend, kind, n);
    }
  }

  lemma RuntimeAgrees(py: SC.Python, backend: Backend, kind: ArgType, n: Number)
    requires py.Valid() && n.Valid() && kind != Constexpr
    ensures WellFormed(py.space, EmitNumber(backend, kind, n).token)
    ensures var c := SC.ClassOf(py, false, EmitNumber(backend, kind, n).token);
            && Agrees(c, EmitNumber(backend, kind, n).values)
            && NumberMeant(py, backend, kind, n, c.value, EmitNumber(backend, kind, n).values)
  {
    NumberShape(backend, kind, n);
    NumberFits(n);
    NumberDelivers(n, NarrowTypeName(n));
    assert HintParts(false, NumberParts(backend, kind, n));
    HintedIsRead(py, NarrowTypeName(n), NumberParts(backend, kind, n));
  }

  lemma FormatIsPlain(n: Number)
    requires n.Valid()
    ensures n.Format() != [] && Plain(n.Format()) && ':' !in n.Format()
    ensures !SC.IsJit(n.Format())
  {
    if n.Whole? {
      ShowIntChars(n.v);
      var s := ShowInt(n.v);
      assert forall i :: 0 <= i < |s| ==> s[i] in s;
    }
    NoColonNoJit(n.Format());
  }

  lemma NoColonNoJit(s: string)
    requires ':' !in s
    ensures !SC.IsJit(s)
  {
    if |s| >= 5 {
      assert s[..5][4] == s[4];
      assert s[4] in s;
    }
  }

  lemma PointerName(dtype: Dtype)
    requires DtypeName(dtype).Some?
    ensures BaseName("*" + DtypeName(dtype).value)
  {
  }

  function PointerParts(hint: bool, range: bool): seq<string> {
    if hint then if range then ["16", "range32"] else ["16"] else if range then ["range32"] else []
  }

  lemma PointerTail(base: string, hint: bool, range: bool)
    ensures base + (if hint then ":16" else "") + (if range then ":range32" else "")
         == base + Tail(PointerParts(hint, range))
  {
    TailOne("16");
    TailOne("range32");
    TailTwo("16", "range32");
    assert ":" + "16" == ":16" && ":" + "range32" == ":range32";
    assert base + ":16" + ":range32" == base + (":16" + ":range32");
    assert ":" + "16" + ":" + "range32" == ":16" + ":range32";
    assert base + "" == base;
  }

  // Which pointers are announced as aligned, and which as within a signed 32-bit range.
  predicate PointerAligned(backend: Backend, kind: ArgType, address: nat) {
    kind == Specialized && backend != Npu && address % 16 == 0
  }

  predicate PointerNear(backend: Backend, kind: ArgType, extent: Option<nat>) {
    backend == Hcu && kind in {Specialized, SpecializedNoAlignment} && extent.Some? && extent.value < 0x8000_0000
  }

  lemma PointerShape(backend: Backend, kind: ArgType, dtype: Dtype, address: nat, extent: Option<nat>)
    returns (base: string, parts: seq<string>)
    requires EmitPointer(backend, kind, dtype, address, extent).Some?
    ensures kind != Constexpr && DtypeName(dtype).Some? && base == "*" + DtypeName(dtype).value && BaseName(base)
    ensures parts == PointerParts(PointerAligned(backend, kind, address), PointerNear(backend, kind, extent))
    ensures EmitPointer(backend, kind, dtype, address, extent).value
         == Emission([Value(CPointer, address)], base + Tail(parts))
  {
    base := "*" + DtypeName(dtype).value;
    PointerName(dtype);
    var hint, range := PointerAligned(backend, kind, address), PointerNear(backend, kind, extent);
    parts := PointerParts(hint, range);
    PointerTail(base, hint, range);
  }

  lemma PointerHints(hint: bool, range: bool)
    ensures HintParts(true, PointerParts(hint, range))
    ensures HintsAre(PointerParts(hint, range)) == SC.Hints(range, if hint then Some(16) else None)
  {
  }

  // The kernel gets this address, and what the compiler is told about it is true.
  ghost predicate PointerMeant(backend: Backend, kind: ArgType, dtype: Dtype, address: nat, extent: Option<nat>,
                               c: SC.Class, values: seq<Value>) {
    && |values| == 1 && FromBytes(values[0].Bytes()) == address && DtypeName(dtype).Some?
    && c == SC.Runtime(["*" + DtypeName(dtype).value],
                       PointerAligned(backend, kind, address), PointerNear(backend, kind, extent))
  }

  lemma AddressDelivered(address: nat)
    requires address < Pow256(8)
    ensures FromBytes(Value(CPointer, address).Bytes()) == address
  {
    BytesRoundTrip(address, 8);
  }

  lemma PointerAgrees(py: SC.Python, backend: Backend, kind: ArgType, dtype: Dtype, address: nat, extent: Option<nat>)
    requires py.Valid() && EmitPointer(backend, kind, dtype, address, extent).Some? && address < Pow256(8)
    ensures var e := EmitPointer(backend, kind, dtype, address, extent).value;
            var c := SC.ClassOf(py, kind == Constexpr, e.token);
            && WellFormed(py.space, e.token) && Agrees(c, e.values)
            && PointerMeant(backend, kind, dtype, address, extent, c.value, e.values)
  {
    AddressDelivered(address);
    var base, parts := PointerShape(backend, kind, dtype, address, extent);
    PointerHints(PointerAligned(backend, kind, address), PointerNear(backend, kind, extent));
    HintedIsRead(py, base, parts);
  }

  // ---- tuples

  lemma {:induction false} LevelInside(inner: string)
    requires '(' !in inner && ')' !in inner
    ensures Level("(" + inner) == Some(1)
  {
    var t := "(" + inner;
    if inner == [] {
      assert t[..0] == [];
    } else {
      LevelInside(inner[..|inner| - 1]);
      assert t[..|t| - 1] == "(" + inner[..|inner| - 1];
    }
  }

  // Names that can stand in a tuple.
  predicate Simple(names: seq<string>) {
    forall i :: 0 <= i < |names| ==> names[i] != [] && Plain(names[i]) && ':' !in names[i]
  }

  lemma {:induction false} JoinIsSimple(names: seq<string>)
    requires names != [] && Simple(names)
    ensures JoinSig(names) != []
    ensures forall i :: 0 <= i < |JoinSig(names)| ==>
              var c := JoinSig(names)[i]; '!' <= c <= '~' && c != '(' && c != ')' && c != ':'
  {
    if |names| > 1 {
      JoinIsSimple(names[..|names| - 1]);
    }
  }

  lemma GroupIsWellFormed(space: Spaces, inner: string)
    requires Neutral(space) && '(' !in inner && ')' !in inner
    ensures WellFormed(space, "(" + inner + ")")
  {
    var token := "(" + inner + ")";
    LevelInside(inner);
    LevelAppend("(" + inner, ')');
    assert token == "(" + inner + [')'];
    assert token[0] == '(' && token[|token| - 1] == ')';
  }

  lemma SimpleJoinSplits(space: Spaces, names: seq<string>)
    requires Neutral(space) && Simple(names)
    ensures Split(space, JoinSig(names)) == Some(names)
    ensures forall i :: 0 <= i < |names| ==> !SC.HasParenthesis(names[i])
  {
    forall i | 0 <= i < |names|
      ensures WellFormed(space, names[i]) && !SC.HasParenthesis(names[i])
    {
      PlainIsWellFormed(space, names[i]);
    }
    JoinSplits(space, names);
  }

  lemma TupleType(space: Spaces, names: seq<string>)
    requires Neutral(space) && names != [] && Simple(names)
    ensures SC.ParseTypeToken(space, "(" + JoinSig(names) + ")") == Some(SC.Many(names))
  {
    var inner := JoinSig(names);
    var token := "(" + inner + ")";
    JoinIsSimple(names);
    assert Trim(space, token) == token && token[1..|token| - 1] == inner;
    assert Trim(space, inner) == inner;
    SimpleJoinSplits(space, names);
  }

  lemma TupleIsToken(space: Spaces, names: seq<string>)
    requires Neutral(space) && names != [] && Simple(names)
    ensures var token := "(" + JoinSig(names) + ")"; WellFormed(space, token) && ':' !in token && !SC.IsJit(token)
  {
    JoinIsSimple(names);
    GroupIsWellFormed(space, JoinSig(names));
    NoColonNoJit("(" + JoinSig(names) + ")");
  }

  lemma TupleIsRead(py: SC.Python, names: seq<string>)
    requires py.Valid() && names != [] && Simple(names)
    ensures WellFormed(py.space, "(" + JoinSig(names) + ")")
    ensures SC.ClassOf(py, false, "(" + JoinSig(names) + ")") == Some(SC.Runtime(names, false, false))
  {
    TupleIsToken(py.space, names);
    WordIs(py, "(" + JoinSig(names) + ")");
    TupleType(py.space, names);
  }

  lemma TypeNameSimple(t: CType)
    ensures TypeName(t) != [] && Plain(TypeName(t)) && ':' !in TypeName(t)
  {
  }

  lemma ElementFits(n: Number)
    requires n.Valid() && !n.Truth?
    ensures Fits(TypeName(n.AsValue().ctype), n.AsValue())
  {
    if n.Whole? {
      WholeFits(n.ctype, n.v);
    }
  }

  // Every element is delivered under its own type.
  ghost predicate TupleMeant(elements: seq<Number>, c: SC.Class, values: seq<Value>) {
    && c == SC.Runtime(Names(elements), false, false) && |values| == |elements|
    && forall i :: 0 <= i < |elements| ==> Delivers(Names(elements)[i], values[i], elements[i])
  }

  lemma TupleFits(elements: seq<Number>)
    requires forall i :: 0 <= i < |elements| ==> elements[i].Valid() && !elements[i].Truth?
    ensures Simple(Names(elements)) && FitAll(Names(elements), Values(elements))
    ensures forall i :: 0 <= i < |elements| ==> Delivers(Names(elements)[i], Values(elements)[i], elements[i])
  {
    forall i | 0 <= i < |elements|
      ensures Fits(Names(elements)[i], Values(elements)[i])
      ensures Delivers(Names(elements)[i], Values(elements)[i], elements[i])
      ensures Names(elements)[i] != [] && Plain(Names(elements)[i]) && ':' !in Names(elements)[i]
    {
      TypeNameSimple(elements[i].AsValue().ctype);
      ElementFits(elements[i]);
      NumberDelivers(elements[i], Names(elements)[i]);
    }
  }

  lemma TupleAgrees(py: SC.Python, elements: seq<Number>)
    requires py.Valid() && elements != []
    requires forall i :: 0 <= i < |elements| ==> elements[i].Valid() && !elements[i].Truth?
    ensures var token := "(" + JoinSig(Names(elements)) + ")";
            && WellFormed(py.space, token) && Agrees(SC.ClassOf(py, false, token), Values(elements))
            && TupleMeant(elements, SC.ClassOf(py, false, token).value, Values(elements))
  {
    TupleFits(elements);
    TupleIsRead(py, Names(elements));
  }

  // ---- strings

  lemma RangesCons(pointer: bool, part: string, rest: seq<string>, seen: bool)
    ensures RangesReadable(pointer, [part] + rest, seen) <==>
              if part == SC.RANGE32 then pointer && !seen && RangesReadable(pointer, rest, true)
              else RangesReadable(pointer, rest, seen)
  {
    var parts := [part] + rest;
    assert parts[0] == part && forall i :: 0 <= i < |rest| ==> parts[i + 1] == rest[i];
    assert forall i :: 0 < i < |parts| ==> parts[i] == rest[i - 1];
  }

  lemma OnceCons(py: SC.Python, part: string, rest: seq<string>)
    ensures NumberOnce(py, [part] + rest) <==>
              && NumberOnce(py, rest)
              && (NumberPart(py, part) ==> forall i :: 0 <= i < |rest| ==> !NumberPart(py, rest[i]))
  {
    var parts := [part] + rest;
    assert parts[0] == part && forall i :: 0 <= i < |rest| ==> parts[i + 1] == rest[i];
    assert forall i :: 0 < i < |parts| ==> parts[i] == rest[i - 1];
  }

  lemma NumbersCons(py: SC.Python, part: string, rest: seq<string>, seen: bool)
    ensures NumbersReadable(py, [part] + rest, seen) <==>
              if NumberPart(py, part)
              then OneOr16(py, part) && !seen && NumbersReadable(py, rest, true)
              else NumbersReadable(py, rest, seen)
  {
    var parts := [part] + rest;
    OnceCons(py, part, rest);
    assert parts[0] == part && forall i :: 0 <= i < |rest| ==> parts[i + 1] == rest[i];
    assert forall i :: 0 < i < |parts| ==> parts[i] == rest[i - 1];
  }

  lemma OneCons(py: SC.Python, part: string, rest: seq<string>)
    ensures HintIsOne(py, [part] + rest) <==>
              HintIsOne(py, rest) || (NumberPart(py, part) && SC.ReadConst(py, part).Is(1))
  {
    var parts := [part] + rest;
    assert parts[0] == part && forall i :: 0 <= i < |rest| ==> parts[i + 1] == rest[i];
  }

  // Folding over the parts, from hints already found, amounts to the conditions on all of them.
  lemma {:induction false} ScanHintsIs(py: SC.Python, pointer: bool, parts: seq<string>, h: SC.Hints)
    ensures var r := SC.ScanHints(py, pointer, parts, h);
            && (r.Some? <==> RangesReadable(pointer, parts, h.range) && NumbersReadable(py, parts, h.hint.Some?))
            && (r.Some? ==> (r.value.hint == Some(1) <==> h.hint == Some(1) || HintIsOne(py, parts)))
    decreases |parts|
  {
    if parts != [] {
      var part, rest := parts[0], parts[1..];
      assert parts == [part] + rest;
      RangesCons(pointer, part, rest, h.range);
      NumbersCons(py, part, rest, h.hint.Some?);
      OneCons(py, part, rest);
      if part == SC.RANGE32 {
        ScanHintsIs(py, pointer, rest, h.(range := true));
      } else if NumberPart(py, part) {
        ScanHintsIs(py, pointer, rest, h.(hint := Some(if SC.ReadConst(py, part).Is(1) then 1 else 16)));
      } else {
        ScanHintsIs(py, pointer, rest, h);
      }
    }
  }

  // A readable type is one of the two words exactly if it reads like one, and is never no type at all.
  lemma WordTypes(space: Spaces, text: string)
    requires SC.ParseTypeToken(space, text).Some?
    ensures var p := SC.ParseTypeToken(space, text).value;
            && (p in {SC.One("nullopt"), SC.One("constexpr")} <==> Trim(space, text) in {"nullopt", "constexpr"})
            && SC.Types(p) != []
  {
    var p, token := SC.ParseTypeToken(space, text).value, Trim(space, text);
    if p.Many? {
      TrimTrim(space, token[1..|token| - 1]);
      SplitNotEmpty(space, Trim(space, token[1..|token| - 1]));
    }
  }

  /** A string argument, for which nothing is packed, agrees with the compiler's reading exactly when it
      is harmless. */
  lemma TextAgrees(py: SC.Python, kind: ArgType, s: string)
    ensures Agrees(SC.ClassOf(py, kind == Constexpr, s), []) <==> Harmless(py, kind, s)
  {
    if !SC.IsJit(s) && kind != Constexpr {
      var fields := SplitOn(':', s);
      ScanHintsIs(py, fields[0] != [] && fields[0][0] == '*', fields[1..], SC.Hints(false, None));
      if SC.ParseTypeToken(py.space, fields[0]).Some? {
        WordTypes(py.space, fields[0]);
      }
    }
  }

  // What the kernel gets for a harmless string: a callee; for a constexpr parameter what the string spells;
  // elsewhere the number one, nothing, or not even a value.
  function TextConst(py: SC.Python, kind: ArgType, s: string): SC.Const {
    if SC.IsJit(s) then
      var callee := ParseToken(py.utf8, s);
      if callee.Some? then SC.CalleeConst(callee.value) else SC.NoneConst
    else if kind == Constexpr then SC.ReadConst(py, s)
    else if HintIsOne(py, SplitOn(':', s)[1..]) then SC.IntConst(1)
    else if Trim(py.space, SplitOn(':', s)[0]) == "nullopt" then SC.NoneConst else SC.Unset
  }

  lemma TextMeans(py: SC.Python, kind: ArgType, s: string)
    requires Harmless(py, kind, s)
    ensures SC.ClassOf(py, kind == Constexpr, s) == Some(SC.Constant(TextConst(py, kind, s)))
  {
    if !SC.IsJit(s) && kind != Constexpr {
      var fields := SplitOn(':', s);
      ScanHintsIs(py, fields[0] != [] && fields[0][0] == '*', fields[1..], SC.Hints(false, None));
      WordTypes(py.space, fields[0]);
    }
  }

  lemma NoParts(py: SC.Python, s: string)
    requires SplitOn(':', s) == [s]
    ensures SaysConstant(py, s) <==>
              SC.ParseTypeToken(py.space, s).Some? && Trim(py.space, s) in {"nullopt", "constexpr"}
  {
    var parts := SplitOn(':', s)[1..];
    assert parts == [];
    assert RangesReadable(s != [] && s[0] == '*', parts, false) && NumbersReadable(py, parts, false);
    assert !HintIsOne(py, parts);
  }

  lemma WordIsType(space: Spaces, s: string)
    requires Trim(space, s) == s && s != [] && s[0] != '('
    ensures SC.ParseTypeToken(space, s).Some?
  {
  }

  /** In a slot that is not constexpr, of all strings without a colon only the two words are harmless. */
  lemma PlainTextAgrees(py: SC.Python, kind: ArgType, s: string)
    requires kind != Constexpr && ':' !in s && Trim(py.space, s) == s
    ensures Harmless(py, kind, s) <==> s in {"nullopt", "constexpr"}
  {
    NoColonNoJit(s);
    SplitOnLast(':', s);
    NoParts(py, s);
    if s in {"nullopt", "constexpr"} {
      WordIsType(py.space, s);
    }
  }

  // Text without hints is classified by its type alone.
  lemma WordIs(py: SC.Python, s: string)
    requires ':' !in s && !SC.IsJit(s)
    ensures var p := SC.ParseTypeToken(py.space, s);
            SC.ClassOf(py, false, s)
              == if p.None? then None else Some(SC.Assembled(p.value, SC.Hints(false, None)))
  {
    SplitOnLast(':', s);
    assert [s][1..] == [];
  }

  // ---- the agreement

  // An emission whose token is one token, with which the compiler's reading of it agrees.
  ghost predicate SlotOk(py: SC.Python, kind: ArgType, e: Emission) {
    && WellFormed(py.space, e.token)
    && Agrees(SC.ClassOf(py, kind == Constexpr, e.token), e.values)
  }

  // The kernel gets this argument, as a constant or packed, and what the compiler is told about it is true.
  ghost predicate Meant(py: SC.Python, backend: Backend, kind: ArgType, item: Item, c: SC.Class, values: seq<Value>) {
    match item
    case Text(s) => c == SC.Constant(TextConst(py, kind, s)) && values == []
    case Absent => c == SC.Constant(SC.NoneConst) && values == []
    case Present(inner) => Meant(py, backend, kind, inner, c, values)
    case Scalar(number) => number.Some? && NumberMeant(py, backend, kind, number.value, c, values)
    case Plainly(n) => NumberMeant(py, backend, kind, n, c, values)
    case Tensor(dtype, address, storage) => PointerMeant(backend, kind, dtype, address, storage, c, values)
    case DevicePtr(dtype, address, extent) => PointerMeant(backend, kind, dtype, address, extent, c, values)
    case Tuple(elements) => TupleMeant(elements, c, values)
    case Jit(path, name, fingerprint) =>
      c == SC.Constant(SC.CalleeConst(Callee(path, name, fingerprint))) && values == []
  }

  lemma AbsentAgrees(py: SC.Python, kind: ArgType)
    requires py.Valid()
    ensures SlotOk(py, kind, Emission([], "nullopt"))
    ensures SC.ClassOf(py, kind == Constexpr, "nullopt") == Some(SC.Constant(SC.NoneConst))
  {
    PlainIsWellFormed(py.space, "nullopt");
    NoColonNoJit("nullopt");
    if kind != Constexpr {
      PlainTextAgrees(py, kind, "nullopt");
      WordIs(py, "nullopt");
      PlainType(py.space, "nullopt");
    }
    TextAgrees(py, kind, "nullopt");
  }

  lemma CalleeAgrees(py: SC.Python, kind: ArgType, path: seq<byte>, name: seq<byte>, fingerprint: string)
    requires py.Valid() && ItemOk(Jit(path, name, fingerprint))
    ensures var token := SignatureToken(path, name, fingerprint);
            && WellFormed(py.space, token)
            && (SlotOk(py, kind, Emission([], token)) <==> py.utf8(path) && py.utf8(name))
            && (SlotOk(py, kind, Emission([], token)) ==>
                  SC.ClassOf(py, kind == Constexpr, token)
                    == Some(SC.Constant(SC.CalleeConst(Callee(path, name, fingerprint)))))
  {
    TokenIsWellFormed(py.space, path, name, fingerprint);
    TokenRoundTrip(py.utf8, path, name, fingerprint);
    assert SignatureToken(path, name, fingerprint)[..5] == "@jit:";
  }

  // What one argument's emission is to the two sides.
  ghost predicate SlotIs(py: SC.Python, backend: Backend, kind: ArgType, item: Item, e: Emission) {
    && (SlotOk(py, kind, e) <==> Sound(py, kind, item))
    && (SlotOk(py, kind, e) ==>
          Meant(py, backend, kind, item, SC.ClassOf(py, kind == Constexpr, e.token).value, e.values))
    && (WellFormed(py.space, e.token) <==> Printable(py.space, item))
  }

  lemma SlotAbsent(py: SC.Python, backend: Backend, kind: ArgType)
    requires py.Valid()
    ensures SlotIs(py, backend, kind, Absent, Emission([], "nullopt"))
  {
    AbsentAgrees(py, kind);
  }

  lemma SlotCallee(py: SC.Python, backend: Backend, kind: ArgType, path: seq<byte>, name: seq<byte>,
                   fingerprint: string)
    requires py.Valid() && ItemOk(Jit(path, name, fingerprint))
    ensures SlotIs(py, backend, kind, Jit(path, name, fingerprint),
                   Emission([], SignatureToken(path, name, fingerprint)))
  {
    CalleeAgrees(py, kind, path, name, fingerprint);
  }

  lemma SlotText(py: SC.Python, backend: Backend, kind: ArgType, s: string)
    ensures SlotIs(py, backend, kind, Text(s), Emission([], s))
  {
    TextAgrees(py, kind, s);
    if Harmless(py, kind, s) {
      TextMeans(py, kind, s);
    }
  }

  lemma SlotNumber(py: SC.Python, backend: Backend, kind: ArgType, n: Number)
    requires py.Valid() && n.Valid()
    ensures SlotIs(py, backend, kind, Plainly(n), EmitNumber(backend, kind, n))
  {
    NumberAgrees(py, backend, kind, n);
  }

  lemma SlotPointer(py: SC.Python, backend: Backend, kind: ArgType, dtype: Dtype, address: nat, extent: Option<nat>)
    requires py.Valid() && EmitPointer(backend, kind, dtype, address, extent).Some? && address < Pow256(8)
    ensures SlotIs(py, backend, kind, DevicePtr(dtype, address, extent),
                   EmitPointer(backend, kind, dtype, address, extent).value)
  {
    PointerAgrees(py, backend, kind, dtype, address, extent);
  }

  lemma SlotTuple(py: SC.Python, backend: Backend, kind: ArgType, elements: seq<Number>)
    requires py.Valid() && kind != Constexpr && ItemOk(Tuple(elements))
    ensures SlotIs(py, backend, kind, Tuple(elements),
                   Emission(Values(elements), "(" + JoinSig(Names(elements)) + ")"))
  {
    TupleAgrees(py, elements);
  }

  /** One argument of any kind: it prints a whole token, and the compiler's reading of that token agrees
      with the values that were packed, exactly when the argument is sound; only strings and callees with
      undecodable names can fail to be. And then a constant equals the argument, packed bytes read as it, and
      what the compiler may assume about it is true. */
  lemma SlotAgrees(py: SC.Python, backend: Backend, kind: ArgType, item: Item)
    requires py.Valid() && ItemOk(item) && Emit(backend, Some(kind), item).Some?
    ensures SlotIs(py, backend, kind, item, Emit(backend, Some(kind), item).value)
    decreases item
  {
    match item
    case Present(inner) => SlotAgrees(py, backend, kind, inner);
    case Text(s) => SlotText(py, backend, kind, s);
    case Absent => SlotAbsent(py, backend, kind);
    case Scalar(number) => SlotNumber(py, backend, kind, number.value);
    case Plainly(n) => SlotNumber(py, backend, kind, n);
    case Tensor(dtype, address, storage) => SlotPointer(py, backend, kind, dtype, address, storage);
    case DevicePtr(dtype, address, extent) => SlotPointer(py, backend, kind, dtype, address, extent);
    case Tuple(elements) => SlotTuple(py, backend, kind, elements);
    case Jit(path, name, fingerprint) => SlotCallee(py, backend, kind, path, name, fingerprint);
  }

  ghost predicate CallOk(py: SC.Python, ssig: seq<ArgType>, items: seq<Item>) {
    && py.Valid() && |ssig| == |items|
    && forall i :: 0 <= i < |items| ==> ItemOk(items[i])
  }

  function ConstexprFlags(ssig: seq<ArgType>): (r: seq<bool>)
    ensures |r| == |ssig| && forall i :: 0 <= i < |ssig| ==> r[i] == (ssig[i] == Constexpr)
  {
    seq(|ssig|, i requires 0 <= i < |ssig| => ssig[i] == Constexpr)
  }

  // The types of the runtime parameters in order, one for every tuple element.
  function RuntimeTypes(classes: seq<SC.Class>): seq<string> {
    if classes == [] then []
    else
      var c := classes[|classes| - 1];
      RuntimeTypes(classes[..|classes| - 1]) + if c.Runtime? then c.types else []
  }

  lemma {:induction false} FlatFit(classes: seq<SC.Class>, es: seq<Option<Emission>>)
    requires |classes| == |es| && AllSome(es)
    requires forall i :: 0 <= i < |es| ==> Agrees(Some(classes[i]), es[i].value.values)
    ensures FitAll(RuntimeTypes(classes), AllValues(es))
  {
    if es != [] {
      var n := |es| - 1;
      FlatFit(classes[..n], es[..n]);
      var c, values := classes[n], es[n].value.values;
      FitAppend(RuntimeTypes(classes[..n]), AllValues(es[..n]), if c.Runtime? then c.types else [], values);
    }
  }

  lemma FitAppend(t1: seq<string>, v1: seq<Value>, t2: seq<string>, v2: seq<Value>)
    requires FitAll(t1, v1) && FitAll(t2, v2)
    ensures FitAll(t1 + t2, v1 + v2)
  {
  }

  // The compiler reads the tokens that were printed, and what it makes of each agrees with the values
  // packed for that argument.
  ghost predicate Understood(py: SC.Python, ssig: seq<ArgType>, es: seq<Option<Emission>>, r: Option<seq<SC.Class>>)
    requires |ssig| == |es| && AllSome(es)
  {
    && Split(py.space, JoinSig(AllTokens(es))) == Some(AllTokens(es))
    && r.Some? && |r.value| == |es|
    && forall i :: 0 <= i < |es| ==> Agrees(Some(r.value[i]), es[i].value.values)
  }

  /** Emitter and compiler understand each other, for every static signature and argument list, exactly
      when every argument is sound; and then every constant that the compiler takes is the argument, every
      runtime value reads as the argument under the type that the compiler expects, and every assumption that
      it makes about one is true. */
  lemma CallAgrees(py: SC.Python, backend: Backend, ssig: seq<ArgType>, items: seq<Item>, r: Option<seq<SC.Class>>)
    requires CallOk(py, ssig, items) && AllSome(EmitEach(backend, ssig, items))
    requires SC.Reading(py, ConstexprFlags(ssig), JoinSig(AllTokens(EmitEach(backend, ssig, items))), r)
    ensures Understood(py, ssig, EmitEach(backend, ssig, items), r) <==>
              forall i :: 0 <= i < |items| ==> Sound(py, ssig[i], items[i])
    ensures Understood(py, ssig, EmitEach(backend, ssig, items), r) ==>
              forall i :: 0 <= i < |items| ==>
                Meant(py, backend, ssig[i], items[i], r.value[i], EmitEach(backend, ssig, items)[i].value.values)
  {
    var es := EmitEach(backend, ssig, items);
    forall i | 0 <= i < |items|
      ensures SlotIs(py, backend, ssig[i], items[i], es[i].value)
    {
      SlotAgrees(py, backend, ssig[i], items[i]);
    }
    CallReads(py, ssig, es, r);
    if Understood(py, ssig, es, r) {
      forall i | 0 <= i < |items|
        ensures Meant(py, backend, ssig[i], items[i], r.value[i], es[i].value.values)
      {
        assert SlotIs(py, backend, ssig[i], items[i], es[i].value);
        assert SC.ClassesOf(py, ConstexprFlags(ssig), AllTokens(es))[i] == Some(r.value[i]);
      }
    }
  }

  // The same about the emissions alone.
  lemma CallReads(py: SC.Python, ssig: seq<ArgType>, es: seq<Option<Emission>>, r: Option<seq<SC.Class>>)
    requires py.Valid() && |ssig| == |es| && AllSome(es)
    requires SC.Reading(py, ConstexprFlags(ssig), JoinSig(AllTokens(es)), r)
    ensures Understood(py, ssig, es, r) <==> forall i :: 0 <= i < |es| ==> SlotOk(py, ssig[i], es[i].value)
  {
    JoinSplits(py.space, AllTokens(es));
    if forall i :: 0 <= i < |es| ==> SlotOk(py, ssig[i], es[i].value) {
      assert AllWellFormed(py.space, AllTokens(es));
    }
    if Understood(py, ssig, es, r) {
      forall i | 0 <= i < |es|
        ensures SlotOk(py, ssig[i], es[i].value)
      {
        assert WellFormed(py.space, AllTokens(es)[i]);
        assert SC.ClassesOf(py, ConstexprFlags(ssig), AllTokens(es))[i] == Some(r.value[i]);
      }
    }
  }

  /** What understanding buys: the runtime types that the compiler expects are matched by the packed values
      one by one and in order. What follows them in the buffer is exactly the scratch pointers. */
  lemma UnderstoodFits(py: SC.Python, ssig: seq<ArgType>, es: seq<Option<Emission>>, r: Option<seq<SC.Class>>)
    requires |ssig| == |es| && AllSome(es) && Understood(py, ssig, es, r)
    ensures FitAll(RuntimeTypes(r.value), AllValues(es))
  {
    FlatFit(r.value, es);
  }

  /** In particular, where every argument prints a whole token but one is not sound, the compiler refuses the
      signature or takes that argument for something that was not packed. */
  lemma StrayDisagrees(py: SC.Python, backend: Backend, ssig: seq<ArgType>, items: seq<Item>,
                       r: Option<seq<SC.Class>>, i: nat)
    requires CallOk(py, ssig, items) && AllSome(EmitEach(backend, ssig, items))
    requires SC.Reading(py, ConstexprFlags(ssig), JoinSig(AllTokens(EmitEach(backend, ssig, items))), r)
    requires forall k :: 0 <= k < |items| ==> Printable(py.space, items[k])
    requires i < |items| && !Sound(py, ssig[i], items[i])
    ensures r.None? || !Agrees(Some(r.value[i]), EmitEach(backend, ssig, items)[i].value.values)
  {
    TokensSurvive(py, backend, ssig, items);
    SlotAgrees(py, backend, ssig[i], items[i]);
    var tokens := AllTokens(EmitEach(backend, ssig, items));
    assert SC.ClassesOf(py, ConstexprFlags(ssig), tokens)[i] == SC.ClassOf(py, ssig[i] == Constexpr, tokens[i]);
  }

  /** The printed tokens survive joining and splitting exactly when every argument prints a whole one. */
  lemma TokensSurvive(py: SC.Python, backend: Backend, ssig: seq<ArgType>, items: seq<Item>)
    requires CallOk(py, ssig, items) && AllSome(EmitEach(backend, ssig, items))
    ensures Split(py.space, JoinSig(AllTokens(EmitEach(backend, ssig, items))))
              == Some(AllTokens(EmitEach(backend, ssig, items)))
            <==> forall i :: 0 <= i < |items| ==> Printable(py.space, items[i])
  {
    var es := EmitEach(backend, ssig, items);
    forall i | 0 <= i < |items|
      ensures WellFormed(py.space, AllTokens(es)[i]) <==> Printable(py.space, items[i])
    {
      SlotAgrees(py, backend, ssig[i], items[i]);
    }
    JoinSplits(py.space, AllTokens(es));
  }
}
