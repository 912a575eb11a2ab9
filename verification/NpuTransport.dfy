/** Arguments on NPU: the launcher parses the signature once more, in C++, and copies the packed
    parameters into one block (include/triton_jit/backends/npu_arg_buffer.h, lines 45-133 and 192-255;
    include/triton_jit/backends/npu_backend.h, lines 139-201). */
module NpuTransport {
  import opened Numerals
  import opened Signature
  import opened PackedLayout
  import opened ParameterBuffer
  import opened ArgEmitter
  import Abi = AbiAgreement
  import JitToken
  import SC = SignatureCompiler

  datatype NpuArgType = Pointer | I32 | I64 | F32 | F64

  function Width(t: NpuArgType): (n: nat)
    ensures CellSize(n)
  {
    if t.I32? || t.F32? then 4 else 8
  }

  // ---- parsing

  predicate StartsWith(s: string, prefix: string) {
    |s| >= |prefix| && s[..|prefix|] == prefix
  }

  predicate IsNumber(token: string) {
    token != [] && (IsDigit(token[0]) || (token[0] == '-' && |token| > 1 && IsDigit(token[1])))
  }

  // A token that passes no argument.
  predicate IsConstant(token: string) {
    StartsWith(token, "@jit:") || token == "nullopt" || token == "true" || token == "false" || IsNumber(token)
  }

  // The prefix tests, on the token up to its first colon.
  function TypeOf(token: string): NpuArgType {
    if StartsWith(token, "*") then Pointer
    else if StartsWith(token, "i64") || StartsWith(token, "u64") then I64
    else if StartsWith(token, "i32") || StartsWith(token, "u32") then I32
    else if StartsWith(token, "fp64") || StartsWith(token, "f64") then F64
    else if StartsWith(token, "fp32") || StartsWith(token, "f32") then F32
    else if StartsWith(token, "fp16") || StartsWith(token, "f16") || StartsWith(token, "bf16") then F32
    else I64
  }

  function UpTo(c: char, s: string): (r: string)
    ensures |r| <= |s|
  {
    if s == [] || s[0] == c then [] else [s[0]] + UpTo(c, s[1..])
  }

  function PlainTokenTypes(token: string): seq<NpuArgType> {
    if IsConstant(token) then [] else [TypeOf(UpTo(':', token))]
  }

  predicate IsGroup(token: string) {
    token != [] && token[0] == '(' && token[|token| - 1] == ')'
  }

  function ConcatTypes(tokens: seq<string>): seq<NpuArgType> {
    if tokens == [] then [] else ConcatTypes(tokens[..|tokens| - 1]) + PlainTokenTypes(tokens[|tokens| - 1])
  }

  predicate AnyParenthesis(elements: seq<string>) {
    exists i :: 0 <= i < |elements| && SC.HasParenthesis(elements[i])
  }

  // append_signature_token: the entries of one token, or an exception.
  function TokenTypes(token: string): Option<seq<NpuArgType>> {
    if IsGroup(token) then
      if Trim(CxxSpace, token[1..|token| - 1]) == [] then None
      else
        var elements := Split(CxxSpace, token[1..|token| - 1]);
        if elements.None? || AnyParenthesis(elements.value) then None else Some(ConcatTypes(elements.value))
    else Some(PlainTokenTypes(token))
  }

  function LayoutOf(tokens: seq<string>): Option<seq<NpuArgType>> {
    if tokens == [] then Some([])
    else
      var front, last := LayoutOf(tokens[..|tokens| - 1]), TokenTypes(tokens[|tokens| - 1]);
      if front.None? || last.None? then None else Some(front.value + last.value)
  }

  method AppendElements(elements: seq<string>, layout: seq<NpuArgType>) returns (r: Option<seq<NpuArgType>>)
    ensures r == if AnyParenthesis(elements) then None else Some(layout + ConcatTypes(elements))
  {
    var result := layout;
    for i := 0 to |elements|
      invariant forall k :: 0 <= k < i ==> !SC.HasParenthesis(elements[k])
      invariant result == layout + ConcatTypes(elements[..i])
    {
      if SC.HasParenthesis(elements[i]) {
        return None;
      }
      assert elements[..i + 1][..i] == elements[..i];
      result := result + PlainTokenTypes(elements[i]);
    }
    assert elements[..|elements|] == elements;
    return Some(result);
  }

  method AppendSignatureToken(token: string, layout: seq<NpuArgType>) returns (r: Option<seq<NpuArgType>>)
    ensures r == if TokenTypes(token).None? then None else Some(layout + TokenTypes(token).value)
  {
    if IsGroup(token) {
      if Trim(CxxSpace, token[1..|token| - 1]) == [] {
        return None;
      }
      var elements := SplitSignatureTokens(token[1..|token| - 1]);
      if elements.None? {
        return None;
      }
      r := AppendElements(elements.value, layout);
      return;
    }
    return Some(layout + PlainTokenTypes(token));
  }

  /** parse_signature: the layout is the concatenation of the tokens' entries. */
  method ParseSignature(sig: string) returns (r: Option<seq<NpuArgType>>)
    ensures var tokens := Split(CxxSpace, sig);
            r == if tokens.None? then None else LayoutOf(tokens.value)
  {
    var split := SplitSignatureTokens(sig);
    if split.None? {
      return None;
    }
    var tokens := split.value;
    var layout: seq<NpuArgType> := [];
    for i := 0 to |tokens|
      invariant LayoutOf(tokens[..i]) == Some(layout)
    {
      assert tokens[..i + 1][..i] == tokens[..i];
      var next := AppendSignatureToken(tokens[i], layout);
      if next.None? {
        NoLayout(tokens, i);
        return None;
      }
      layout := next.value;
    }
    assert tokens[..|tokens|] == tokens;
    return Some(layout);
  }

  lemma {:induction false} NoLayout(tokens: seq<string>, i: nat)
    requires i < |tokens| && TokenTypes(tokens[i]).None?
    ensures LayoutOf(tokens).None?
  {
    if i < |tokens| - 1 {
      NoLayout(tokens[..|tokens| - 1], i);
    }
  }

  // ---- the layout fits the packed values

  // A layout entry takes the number out of the low bytes of a packed value.
  predicate Carries(t: NpuArgType, v: Value) {
    match t
    case Pointer => v.ctype == CPointer
    case I32 =>
      v.ctype == CInt || v.ctype == CUint
      || (v.ctype == CLong && -0x8000_0000 <= Signed(v.bits, 8) < 0x8000_0000)
    case I64 => v.ctype == CLong || v.ctype == CUlong
    case F32 => v.ctype == CFloat
    case F64 => v.ctype == CDouble
  }

  ghost predicate CarryAll(ts: seq<NpuArgType>, vs: seq<Value>) {
    |ts| == |vs| && forall i :: 0 <= i < |ts| ==> Carries(ts[i], vs[i])
  }

  lemma {:induction false} LowBits32(bits: nat)
    ensures Pow256(4) == 0x1_0000_0000 && Pow256(8) == 0x1_0000_0000_0000_0000
  {
  }

  /** What an entry that carries a value copies means the same number: all its bits, or for an int64
      that was named i32, the same signed number in half the bytes. */
  lemma CarriedNumber(t: NpuArgType, v: Value)
    requires v.Valid() && Carries(t, v)
    ensures Width(t) <= Size(v.ctype)
    ensures var read := FromBytes(v.Bytes()[..Width(t)]);
            if v.ctype == CLong then Signed(read, Width(t)) == Signed(v.bits, 8) else read == v.bits
  {
    if v.ctype == CLong && t == I32 {
      LowBits32(v.bits);
      var x := Signed(v.bits, 8);
      assert Bits(x, 8) == v.bits;
      SignedReadsBack(x, 8, 4);
    } else {
      assert v.Bytes()[..Width(t)] == v.Bytes();
      BytesRoundTrip(v.bits, Size(v.ctype));
    }
  }

  // What can cross to an NPU: no runtime bool, and no constant that looks like a type to this parser.
  predicate Crosses(kind: ArgType, item: Item) {
    match item
    case Scalar(number) => number.Some? ==> NumberCrosses(kind, number.value)
    case Plainly(n) => NumberCrosses(kind, n)
    case Text(s) => TextCrosses(s)
    case Present(inner) => Crosses(kind, inner)
    case _ => true
  }

  predicate NumberCrosses(kind: ArgType, n: Number) {
    if kind == Constexpr then n.Fraction? ==> IsConstant(n.text) else !n.Truth?
  }

  predicate TextCrosses(s: string) {
    if IsGroup(s) then
      var elements := Split(CxxSpace, s[1..|s| - 1]);
      && Trim(CxxSpace, s[1..|s| - 1]) != [] && elements.Some?
      && AllConstant(elements.value) && !AnyParenthesis(elements.value)
    else IsConstant(s)
  }

  // A token's entries fit the values that were packed for it.
  ghost predicate TokenFits(token: string, values: seq<Value>) {
    TokenTypes(token).Some? && CarryAll(TokenTypes(token).value, values)
  }

  predicate AllConstant(tokens: seq<string>) {
    forall i :: 0 <= i < |tokens| ==> IsConstant(tokens[i])
  }

  lemma {:induction false} ConcatEmpty(tokens: seq<string>)
    ensures ConcatTypes(tokens) == [] <==> AllConstant(tokens)
  {
    if tokens != [] {
      var n := |tokens| - 1;
      ConcatEmpty(tokens[..n]);
      AllConstantLast(tokens, n);
      assert PlainTokenTypes(tokens[n]) == [] <==> IsConstant(tokens[n]);
    }
  }

  lemma AllConstantLast(tokens: seq<string>, n: nat)
    requires |tokens| == n + 1
    ensures AllConstant(tokens) <==> AllConstant(tokens[..n]) && IsConstant(tokens[n])
  {
    if AllConstant(tokens[..n]) && IsConstant(tokens[n]) {
      forall i | 0 <= i < |tokens|
        ensures IsConstant(tokens[i])
      {
        assert i < n ==> tokens[..n][i] == tokens[i];
      }
    }
  }

  lemma TextFits(s: string)
    ensures TokenFits(s, []) <==> TextCrosses(s)
  {
    if IsGroup(s) && Split(CxxSpace, s[1..|s| - 1]).Some? {
      ConcatEmpty(Split(CxxSpace, s[1..|s| - 1]).value);
    }
  }

  lemma {:induction false} DigitFirst(n: nat)
    ensures IsDigit(ShowNat(n)[0])
  {
  }

  lemma FormatFits(n: Number)
    requires n.Valid()
    ensures TokenFits(n.Format(), []) <==> NumberCrosses(Constexpr, n)
  {
    Abi.FormatIsPlain(n);
    assert !IsGroup(n.Format());
    if n.Whole? {
      DigitFirst(if n.v < 0 then -n.v else n.v);
    }
    TextFits(n.Format());
  }

  // The names of runtime numbers, none of them a constant or a group.
  lemma NumberName(n: Number)
    requires n.Valid()
    ensures !IsGroup(NarrowTypeName(n)) && !IsConstant(NarrowTypeName(n))
    ensures UpTo(':', NarrowTypeName(n)) == NarrowTypeName(n)
    ensures Carries(TypeOf(NarrowTypeName(n)), n.AsValue()) <==> !n.Truth?
  {
    var name := NarrowTypeName(n);
    if n.Whole? {
      Abi.WholeFits(n.ctype, n.v);
    }
    assert name == "i1" || name == "i32" || name == "u32" || name == "i64" || name == "u64" || name == "fp32"
        || name == "fp64";
    NameText(name);
  }

  lemma NameText(name: string)
    requires name == "i1" || name == "i32" || name == "u32" || name == "i64" || name == "u64" || name == "fp32"
               || name == "fp64"
    ensures !IsGroup(name) && !IsConstant(name) && UpTo(':', name) == name
    ensures TypeOf(name)
         == if name == "i32" || name == "u32" then I32 else if name == "fp64" then F64
             else if name == "fp32" then F32 else I64
  {
    UpToAll(':', name);
    NotConstant(name);
    if |name| == 4 {
      FloatName(name);
    } else {
      IntegerName(name);
    }
  }

  lemma StartsWithSame(s: string, prefix: string)
    requires |s| == |prefix|
    ensures StartsWith(s, prefix) <==> s == prefix
  {
    assert s[..|s|] == s;
  }

  lemma StartsWithFirst(s: string, prefix: string)
    requires s != [] && prefix != [] && s[0] != prefix[0]
    ensures !StartsWith(s, prefix)
  {
    assert |s| >= |prefix| ==> s[..|prefix|][0] == s[0];
  }

  lemma IntegerName(name: string)
    requires name == "i1" || name == "i32" || name == "u32" || name == "i64" || name == "u64"
    ensures TypeOf(name) == if name == "i32" || name == "u32" then I32 else I64
  {
    StartsWithFirst(name, "*");
    if |name| == 3 {
      StartsWithSame(name, "i64");
      StartsWithSame(name, "u64");
      StartsWithSame(name, "i32");
      StartsWithSame(name, "u32");
    }
    StartsWithFirst(name, "fp64");
    StartsWithFirst(name, "f64");
    StartsWithFirst(name, "fp32");
    StartsWithFirst(name, "f32");
    StartsWithFirst(name, "fp16");
    StartsWithFirst(name, "f16");
    StartsWithFirst(name, "bf16");
  }

  lemma FloatName(name: string)
    requires name == "fp32" || name == "fp64"
    ensures TypeOf(name) == if name == "fp64" then F64 else F32
  {
    StartsWithFirst(name, "*");
    StartsWithFirst(name, "i64");
    StartsWithFirst(name, "u64");
    StartsWithFirst(name, "i32");
    StartsWithFirst(name, "u32");
    StartsWithSame(name, "fp64");
    StartsWithSame(name, "fp32");
    assert name[..3][1] == 'p';
  }

  lemma NotConstant(name: string)
    requires name != [] && name[0] in "iuf*" && (name[0] != 'f' || name[|name| - 1] != 'e')
    ensures !IsConstant(name)
  {
    assert |name| >= 5 ==> name[..5][0] == name[0];
  }

  lemma {:induction false} UpToAll(c: char, s: string)
    requires c !in s
    ensures UpTo(c, s) == s
  {
    if s != [] {
      UpToAll(c, s[1..]);
    }
  }

  lemma NumberFits(kind: ArgType, n: Number)
    requires n.Valid()
    ensures TokenFits(EmitNumber(Npu, kind, n).token, EmitNumber(Npu, kind, n).values) <==> NumberCrosses(kind, n)
  {
    if kind == Constexpr {
      FormatFits(n);
    } else {
      var name, t, v := NarrowTypeName(n), TypeOf(NarrowTypeName(n)), n.AsValue();
      NumberName(n);
      assert EmitNumber(Npu, kind, n) == Emission([v], name);
      assert TokenTypes(name) == Some([t]);
      OneCarries(t, v);
    }
  }

  lemma OneCarries(t: NpuArgType, v: Value)
    ensures CarryAll([t], [v]) <==> Carries(t, v)
  {
    assert [t][0] == t && [v][0] == v;
  }

  lemma PointerFits(kind: ArgType, dtype: Dtype, address: nat, extent: Option<nat>)
    requires EmitPointer(Npu, kind, dtype, address, extent).Some?
    ensures var e := EmitPointer(Npu, kind, dtype, address, extent).value; TokenFits(e.token, e.values)
  {
    var e := EmitPointer(Npu, kind, dtype, address, extent).value;
    PointerText(e.token);
  }

  lemma PointerText(token: string)
    requires token != [] && token[0] == '*'
    ensures TokenTypes(token) == Some([Pointer])
  {
    assert !IsGroup(token);
    assert |token| >= 5 ==> token[..5][0] == '*';
    assert !IsConstant(token);
    assert UpTo(':', token)[0] == '*';
    assert UpTo(':', token)[..1] == "*";
  }

  lemma {:induction false} ElementTypes(elements: seq<Number>)
    requires forall i :: 0 <= i < |elements| ==> elements[i].Valid() && !elements[i].Truth?
    ensures CarryAll(ConcatTypes(Names(elements)), Values(elements))
  {
    if elements != [] {
      var n := |elements| - 1;
      ElementTypes(elements[..n]);
      ElementType(elements[n]);
      ElementsFront(elements, n);
      assert ConcatTypes(Names(elements)) == ConcatTypes(Names(elements[..n])) + PlainTokenTypes(Names(elements)[n]);
    }
  }

  lemma ElementsFront(elements: seq<Number>, n: nat)
    requires |elements| == n + 1
    ensures Names(elements)[..n] == Names(elements[..n])
    ensures Values(elements) == Values(elements[..n]) + [elements[n].AsValue()]
    ensures Names(elements)[n] == TypeName(elements[n].AsValue().ctype)
  {
  }

  lemma ElementType(n: Number)
    requires n.Valid() && !n.Truth?
    ensures var name := TypeName(n.AsValue().ctype);
            |PlainTokenTypes(name)| == 1 && Carries(PlainTokenTypes(name)[0], n.AsValue())
  {
    NameText(TypeName(n.AsValue().ctype));
  }

  lemma TupleFits(elements: seq<Number>)
    requires elements != [] && forall i :: 0 <= i < |elements| ==> elements[i].Valid() && !elements[i].Truth?
    ensures TokenFits("(" + JoinSig(Names(elements)) + ")", Values(elements))
  {
    Abi.TupleFits(elements);
    GroupTypes(Names(elements));
    ElementTypes(elements);
  }

  lemma GroupTypes(names: seq<string>)
    requires names != [] && Abi.Simple(names)
    ensures TokenTypes("(" + JoinSig(names) + ")") == Some(ConcatTypes(names))
  {
    var inner := JoinSig(names);
    var token := "(" + inner + ")";
    assert token[1..|token| - 1] == inner;
    Abi.JoinIsSimple(names);
    assert Trim(CxxSpace, inner) == inner;
    Abi.SimpleJoinSplits(CxxSpace, names);
  }

  lemma CalleeFits(path: seq<byte>, name: seq<byte>, fingerprint: string)
    ensures TokenFits(JitToken.SignatureToken(path, name, fingerprint), [])
  {
    var token := JitToken.SignatureToken(path, name, fingerprint);
    assert token[..5] == "@jit:";
  }

  /** What does not cross: a constexpr infinity or NaN prints as a word that this parser takes for an
      int64 argument, although nothing was packed for it. */
  lemma InfinityIsMisread(word: string)
    requires word == "inf" || word == "nan" || word == "-inf"
    ensures TokenTypes(word) == Some([I64]) && !TokenFits(word, [])
  {
    UpToAll(':', word);
    StartsWithFirst(word, "*");
    StartsWithFirst(word, "u64");
    StartsWithFirst(word, "u32");
    StartsWithFirst(word, "fp64");
    StartsWithFirst(word, "f64");
    StartsWithFirst(word, "fp32");
    StartsWithFirst(word, "f32");
    StartsWithFirst(word, "fp16");
    StartsWithFirst(word, "f16");
    StartsWithFirst(word, "bf16");
    assert |word| == 3 ==> word[..3] == word;
    assert word[..3] != "i32" && word[..3] != "i64";
  }

  /** One argument: this parser's entries fit the packed values exactly when the argument can cross. */
  lemma SlotFits(kind: ArgType, item: Item)
    requires Abi.ItemOk(item) && Emit(Npu, Some(kind), item).Some?
    ensures var e := Emit(Npu, Some(kind), item).value; TokenFits(e.token, e.values) <==> Crosses(kind, item)
    decreases item
  {
    match item
    case Present(inner) => SlotFits(kind, inner);
    case Text(s) => TextFits(s);
    case Absent => TextFits("nullopt");
    case Scalar(number) => NumberFits(kind, number.value);
    case Plainly(n) => NumberFits(kind, n);
    case Tensor(dtype, address, storage) => PointerFits(kind, dtype, address, storage);
    case DevicePtr(dtype, address, extent) => PointerFits(kind, dtype, address, extent);
    case Tuple(elements) => TupleFits(elements);
    case Jit(path, name, fingerprint) => CalleeFits(path, name, fingerprint);
  }

  lemma CarryAppend(t1: seq<NpuArgType>, v1: seq<Value>, t2: seq<NpuArgType>, v2: seq<Value>)
    requires CarryAll(t1, v1) && CarryAll(t2, v2)
    ensures CarryAll(t1 + t2, v1 + v2)
  {
  }

  lemma {:induction false} LayoutFits(es: seq<Option<Emission>>)
    requires AllSome(es) && forall i :: 0 <= i < |es| ==> TokenFits(es[i].value.token, es[i].value.values)
    ensures LayoutOf(AllTokens(es)).Some? && CarryAll(LayoutOf(AllTokens(es)).value, AllValues(es))
  {
    if es != [] {
      var n := |es| - 1;
      LayoutFits(es[..n]);
      var tokens := AllTokens(es);
      assert tokens[..n] == AllTokens(es[..n]) && tokens[n] == es[n].value.token;
      CarryAppend(LayoutOf(tokens[..n]).value, AllValues(es[..n]), TokenTypes(tokens[n]).value, es[n].value.values);
    }
  }

  /** parse_signature(join_sig(...)) has one entry per packed value, in order, each of which carries its
      value, when every argument can cross. */
  lemma ParsedLayoutFits(py: SC.Python, ssig: seq<ArgType>, items: seq<Item>)
    requires py.space == CxxSpace && Abi.CallOk(py, ssig, items) && AllSome(EmitEach(Npu, ssig, items))
    requires forall i :: 0 <= i < |items| ==> Abi.Printable(CxxSpace, items[i]) && Crosses(ssig[i], items[i])
    ensures var es := EmitEach(Npu, ssig, items);
            var tokens := Split(CxxSpace, JoinSig(AllTokens(es)));
            && tokens.Some? && LayoutOf(tokens.value).Some?
            && CarryAll(LayoutOf(tokens.value).value, AllValues(es))
  {
    var es := EmitEach(Npu, ssig, items);
    Abi.TokensSurvive(py, Npu, ssig, items);
    forall i | 0 <= i < |items|
      ensures TokenFits(es[i].value.token, es[i].value.values)
    {
      SlotFits(ssig[i], items[i]);
    }
    LayoutFits(es);
  }

  // ---- the argument block

  const SYSTEM_ARGS_SIZE: nat := 24

  // One field per layout entry: the low bytes of the value.
  function Fields(layout: seq<NpuArgType>, values: seq<Value>): (cells: seq<seq<byte>>)
    requires CarryAll(layout, values)
    ensures |cells| == |layout| && Cells(cells)
    ensures forall i :: 0 <= i < |layout| ==>
              |cells[i]| == Width(layout[i]) && cells[i] == values[i].Bytes()[..Width(layout[i])]
  {
    seq(|layout|, i requires 0 <= i < |layout| => values[i].Bytes()[..Width(layout[i])])
  }

  function SystemArgs(ffts: nat, lock: nat, workspace: nat): (s: seq<byte>)
    ensures |s| == SYSTEM_ARGS_SIZE
  {
    ToBytes(ffts, 8) + ToBytes(lock, 8) + ToBytes(workspace, 8)
  }

  lemma FieldBytes(memory: seq<byte>, at: nat, t: NpuArgType, v: Value)
    requires v.Valid() && Carries(t, v) && at + Size(v.ctype) <= |memory|
    requires memory[at..at + Size(v.ctype)] == v.Bytes()
    ensures Width(t) <= Size(v.ctype) && memory[at..at + Width(t)] == v.Bytes()[..Width(t)]
  {
    CarriedNumber(t, v);
  }

  lemma NextField(start: seq<byte>, fields: seq<seq<byte>>, i: nat)
    requires Cells(fields) && i < |fields|
    ensures Image(start, fields[..i + 1]) == Appended(Image(start, fields[..i]), fields[i])
  {
    OneMoreCell(start, fields[..i], fields[i]);
    assert fields[..i + 1] == fields[..i] + [fields[i]];
  }

  // Pointer i leads to the bytes of value i.
  ghost predicate LeadTo(memory: seq<byte>, ptrs: seq<nat>, values: seq<Value>) {
    && |ptrs| == |values|
    && (forall i :: 0 <= i < |values| ==> values[i].Valid())
    && forall i :: 0 <= i < |values| ==>
         && ptrs[i] + Size(values[i].ctype) <= |memory|
         && memory[ptrs[i]..ptrs[i] + Size(values[i].ctype)] == values[i].Bytes()
  }

  class NpuArgBuffer {
    var buffer: seq<byte>
    var cursor: nat

    // Everything from the cursor on is still zero.
    ghost predicate Valid()
      reads this
    {
      && SYSTEM_ARGS_SIZE <= cursor <= |buffer|
      && forall k :: cursor <= k < |buffer| ==> buffer[k] == 0
    }

    ghost function Content(): seq<byte>
      requires Valid()
      reads this
    {
      buffer[..cursor]
    }

    constructor (estimatedUserArgs: nat)
      ensures Valid() && Content() == Zeros(SYSTEM_ARGS_SIZE)
    {
      buffer := Zeros(SYSTEM_ARGS_SIZE + estimatedUserArgs + 16);
      cursor := SYSTEM_ARGS_SIZE;
      new;
      assert buffer[..cursor] == Zeros(SYSTEM_ARGS_SIZE);
    }

    method SetSystemArgs(ffts: nat, lock: nat, workspace: nat)
      requires Valid() && cursor == SYSTEM_ARGS_SIZE
      modifies this
      ensures Valid() && Content() == SystemArgs(ffts, lock, workspace)
    {
      var tail := buffer[24..];
      buffer := SystemArgs(ffts, lock, workspace) + tail;
    }

    method EnsureCapacity(required: nat)
      requires Valid()
      modifies this`buffer
      ensures Valid() && |buffer| >= required && Content() == old(Content())
    {
      if required > |buffer| {
        buffer := buffer + Zeros(required + 32 - |buffer|);
      }
    }

    // push_arg: align, make room, copy.
    method PushArg(bytes: seq<byte>)
      requires Valid() && CellSize(|bytes|)
      modifies this
      ensures Valid() && Content() == Appended(old(Content()), bytes)
    {
      var at := NextMultiple(cursor, |bytes|);
      EnsureCapacity(at + |bytes|);
      ghost var before := buffer;
      buffer := buffer[..at] + bytes + buffer[at + |bytes|..];
      assert buffer[..at + |bytes|] == Appended(before[..cursor], bytes);
      cursor := at + |bytes|;
    }

    // push_args_from_layout: entry i is copied from where pointer i leads.
    method PushArgsFromLayout(memory: seq<byte>, ptrs: seq<nat>, layout: seq<NpuArgType>, ghost values: seq<Value>)
      requires Valid() && CarryAll(layout, values) && LeadTo(memory, ptrs, values)
      modifies this
      ensures Valid() && Content() == Image(old(Content()), Fields(layout, values))
    {
      ghost var start, fields := Content(), Fields(layout, values);
      for i := 0 to |layout|
        invariant Valid() && Content() == Image(start, fields[..i])
      {
        FieldBytes(memory, ptrs[i], layout[i], values[i]);
        NextField(start, fields, i);
        PushArg(memory[ptrs[i]..ptrs[i] + Width(layout[i])]);
      }
      assert fields[..|layout|] == fields;
    }

    method SetGrid(gx: int, gy: int, gz: int)
      requires Valid()
      modifies this
      ensures Valid() && Content() == Image(old(Content()), GridCells(gx, gy, gz))
    {
      ghost var start := Content();
      PushArg(ToBytes(Bits(gx, 4), 4));
      PushArg(ToBytes(Bits(gy, 4), 4));
      PushArg(ToBytes(Bits(gz, 4), 4));
      ThreeCells(start, ToBytes(Bits(gx, 4), 4), ToBytes(Bits(gy, 4), 4), ToBytes(Bits(gz, 4), 4));
    }
  }

  function GridCells(gx: int, gy: int, gz: int): (cells: seq<seq<byte>>)
    ensures |cells| == 3 && Cells(cells)
  {
    [ToBytes(Bits(gx, 4), 4), ToBytes(Bits(gy, 4), 4), ToBytes(Bits(gz, 4), 4)]
  }

  lemma ThreeCells(start: seq<byte>, a: seq<byte>, b: seq<byte>, c: seq<byte>)
    requires CellSize(|a|) && CellSize(|b|) && CellSize(|c|)
    ensures Image(start, [a, b, c]) == Appended(Appended(Appended(start, a), b), c)
  {
    OneCell(start, a);
    OneMoreCell(start, [a], b);
    assert [a] + [b] == [a, b];
    OneMoreCell(start, [a, b], c);
    assert [a, b] + [c] == [a, b, c];
  }

  lemma OneCell(start: seq<byte>, a: seq<byte>)
    requires CellSize(|a|)
    ensures Image(start, [a]) == Appended(start, a)
  {
    var none: seq<seq<byte>> := [];
    OneMoreCell(start, none, a);
    assert none + [a] == [a];
  }

  // ---- a whole NPU call

  lemma EmittedValid(kind: ArgType, item: Item)
    requires Abi.ItemOk(item) && Emit(Npu, Some(kind), item).Some?
    ensures forall v :: v in Emit(Npu, Some(kind), item).value.values ==> v.Valid()
    decreases item
  {
    match item
    case Present(inner) => EmittedValid(kind, inner);
    case Scalar(number) => NumberValid(number.value);
    case Plainly(n) => NumberValid(n);
    case Tuple(elements) =>
      forall i | 0 <= i < |elements|
        ensures Values(elements)[i].Valid()
      {
        NumberValid(elements[i]);
      }
    case _ =>
  }

  lemma NumberValid(n: Number)
    requires n.Valid()
    ensures n.AsValue().Valid()
  {
    assert Pow256(1) == 256;
  }

  lemma {:induction false} AllValid(es: seq<Option<Emission>>)
    requires AllSome(es) && forall i :: 0 <= i < |es| ==> forall v :: v in es[i].value.values ==> v.Valid()
    ensures forall v :: v in AllValues(es) ==> v.Valid()
  {
    if es != [] {
      AllValid(es[..|es| - 1]);
    }
  }

  // The layout that the signature asks for, or for want of one the metadata's; without either there is
  // nothing to launch with.
  function LaunchLayout(signature: string, metadata: seq<NpuArgType>): Option<seq<NpuArgType>> {
    if signature == "" then if metadata == [] then None else Some(metadata)
    else if Split(CxxSpace, signature).None? then None
    else LayoutOf(Split(CxxSpace, signature).value)
  }

  // The block is the system header, with no lock, one field per value, and the grid.
  ghost predicate Holds(block: NpuArgBuffer, layout: seq<NpuArgType>, values: seq<Value>, ffts: nat, workspace: nat,
                        gx: int, gy: int, gz: int)
    reads block
  {
    && block.Valid() && CarryAll(layout, values)
    && block.Content() == Image(Image(SystemArgs(ffts, 0, workspace), Fields(layout, values)), GridCells(gx, gy, gz))
  }

  /** launch_kernel: find the layout, refuse a wrong count, then header, fields and grid. A count of zero
      is not checked; the caller then has to pass as many arguments as the layout says. */
  method LaunchKernel(memory: seq<byte>, ptrs: seq<nat>, numArgs: nat, signature: string, metadata: seq<NpuArgType>,
                      ghost values: seq<Value>, ffts: nat, workspace: nat, gx: int, gy: int, gz: int)
    returns (block: NpuArgBuffer, layout: seq<NpuArgType>, ok: bool)
    requires LeadTo(memory, ptrs, values)
    requires numArgs == 0 || numArgs == |ptrs|
    requires var types := LaunchLayout(signature, metadata);
             && (types.Some? && |types.value| == |values| ==> CarryAll(types.value, values))
             && (types.Some? && numArgs == 0 ==> |types.value| == |ptrs|)
    ensures var types := LaunchLayout(signature, metadata);
            && (ok <==> types.Some? && (numArgs == 0 || |types.value| == numArgs))
            && (ok ==> layout == types.value)
    ensures ok ==> Holds(block, layout, values, ffts, workspace, gx, gy, gz)
  {
    layout := metadata;
    ok := metadata != [];
    if signature != "" {
      var parsed := ParseSignature(signature);
      ok := parsed.Some?;
      layout := if ok then parsed.value else [];
    }
    block := new NpuArgBuffer(|layout| * 8 + 16);
    ok := ok && (numArgs == 0 || numArgs == |layout|);
    if ok {
      block.SetSystemArgs(ffts, 0, workspace);
      block.PushArgsFromLayout(memory, ptrs, layout, values);
      block.SetGrid(gx, gy, gz);
    }
  }

  // What the launcher reads off the signature of a call whose arguments can cross.
  lemma CallLayout(py: SC.Python, ssig: seq<ArgType>, items: seq<Item>)
    requires py.space == CxxSpace && Abi.CallOk(py, ssig, items) && AllSome(EmitEach(Npu, ssig, items))
    requires forall i :: 0 <= i < |items| ==> Abi.Printable(CxxSpace, items[i]) && Crosses(ssig[i], items[i])
    ensures var es := EmitEach(Npu, ssig, items);
            var types := LaunchLayout(JoinSig(AllTokens(es)), []);
            && (types.Some? <==> items != [])
            && (types.Some? ==> CarryAll(types.value, AllValues(es)))
  {
    Abi.TokensSurvive(py, Npu, ssig, items);
    JoinSplits(CxxSpace, []);
    ParsedLayoutFits(py, ssig, items);
  }

  /** The host's part and the launcher's part together: whatever the arguments, if there are any and
      each can cross, the block is the system header, one field per packed value, and the grid. */
  method TransportCall(ghost py: SC.Python, ssig: seq<ArgType>, items: seq<Item>,
                       ffts: nat, workspace: nat, gx: int, gy: int, gz: int)
    returns (block: NpuArgBuffer?, layout: seq<NpuArgType>, ok: bool)
    requires py.space == CxxSpace && Abi.CallOk(py, ssig, items)
    requires forall i :: 0 <= i < |items| ==> Abi.Printable(CxxSpace, items[i]) && Crosses(ssig[i], items[i])
    ensures ok <==> AllSome(EmitEach(Npu, ssig, items)) && items != []
    ensures ok ==>
              && block != null
              && Holds(block, layout, AllValues(EmitEach(Npu, ssig, items)), ffts, workspace, gx, gy, gz)
  {
    block, layout := null, [];
    var buf, ptrs, signature;
    buf, ptrs, signature, ok := PackCall(py, ssig, items);
    if ok {
      CallLayout(py, ssig, items);
      block, layout, ok :=
        LaunchKernel(buf.buff, ptrs, |ptrs|, signature, [], buf.values, ffts, workspace, gx, gy, gz);
    }
  }

  // The host's part: what it packs, where it is, and the signature.
  method PackCall(ghost py: SC.Python, ssig: seq<ArgType>, items: seq<Item>)
    returns (buf: Buffer, ptrs: seq<nat>, signature: string, ok: bool)
    requires Abi.CallOk(py, ssig, items)
    ensures ok <==> AllSome(EmitEach(Npu, ssig, items))
    ensures ok ==>
              var es := EmitEach(Npu, ssig, items);
              && buf.values == AllValues(es) && signature == JoinSig(AllTokens(es))
              && LeadTo(buf.buff, ptrs, AllValues(es))
  {
    buf, signature, ok := Call(Npu, ssig, items);
    ptrs := [];
    if ok {
      CallValid(py, ssig, items);
      ptrs := buf.GetPtrs();
      assert buf.values == AllValues(EmitEach(Npu, ssig, items));
    }
  }

  lemma CallValid(py: SC.Python, ssig: seq<ArgType>, items: seq<Item>)
    requires Abi.CallOk(py, ssig, items) && AllSome(EmitEach(Npu, ssig, items))
    ensures forall i :: 0 <= i < |AllValues(EmitEach(Npu, ssig, items))| ==>
              AllValues(EmitEach(Npu, ssig, items))[i].Valid()
  {
    var es := EmitEach(Npu, ssig, items);
    forall i | 0 <= i < |es|
      ensures forall v :: v in es[i].value.values ==> v.Valid()
    {
      EmittedValid(ssig[i], items[i]);
    }
    AllValid(es);
  }

  // What reading the n bytes at `at` as the type of value v gives.
  predicate ReadsAs(block: seq<byte>, at: nat, n: nat, v: Value) {
    at + n <= |block|
    && if v.ctype == CLong then Signed(FromBytes(block[at..at + n]), n) == Signed(v.bits, 8)
       else FromBytes(block[at..at + n]) == v.bits
  }

  /** Field i is aligned behind the header and decodes to packed value i. */
  lemma FieldDecodes(header: seq<byte>, layout: seq<NpuArgType>, values: seq<Value>, i: nat)
    requires |header| == SYSTEM_ARGS_SIZE && CarryAll(layout, values) && i < |layout| && values[i].Valid()
    ensures var fields := Fields(layout, values);
            var at, n := Offsets(header, fields)[i], Width(layout[i]);
            SYSTEM_ARGS_SIZE <= at && at % n == 0 && ReadsAs(Image(header, fields), at, n, values[i])
  {
    var fields := Fields(layout, values);
    CellSits(header, fields, i);
    OffsetsAfter(header, fields, i);
    SliceReads(Image(header, fields), Offsets(header, fields)[i], layout[i], values[i]);
  }

  lemma SliceReads(block: seq<byte>, at: nat, t: NpuArgType, v: Value)
    requires v.Valid() && Carries(t, v) && at + Width(t) <= |block| && Width(t) <= Size(v.ctype)
    requires block[at..at + Width(t)] == v.Bytes()[..Width(t)]
    ensures ReadsAs(block, at, Width(t), v)
  {
    CarriedNumber(t, v);
  }

  /** Reading the block back: the header is where it was put, every field decodes to its packed value,
      and the grid behind them changes neither. */
  lemma BlockDecodes(header: seq<byte>, layout: seq<NpuArgType>, values: seq<Value>, gx: int, gy: int, gz: int, i: nat)
    requires |header| == SYSTEM_ARGS_SIZE && CarryAll(layout, values) && i < |layout| && values[i].Valid()
    ensures var fields := Fields(layout, values);
            var block := Image(Image(header, fields), GridCells(gx, gy, gz));
            var at, n := Offsets(header, fields)[i], Width(layout[i]);
            && block[..SYSTEM_ARGS_SIZE] == header
            && SYSTEM_ARGS_SIZE <= at && at % n == 0 && ReadsAs(block, at, n, values[i])
  {
    var fields := Fields(layout, values);
    FieldDecodes(header, layout, values, i);
    var body := Image(header, fields);
    var block := Image(body, GridCells(gx, gy, gz));
    SamePrefix(header, body, block);
    ReadsLonger(body, block, Offsets(header, fields)[i], Width(layout[i]), values[i]);
  }

  lemma SamePrefix(header: seq<byte>, body: seq<byte>, block: seq<byte>)
    requires header <= body && body <= block
    ensures block[..|header|] == header
  {
    assert block[..|header|] == body[..|header|];
  }

  lemma ReadsLonger(body: seq<byte>, block: seq<byte>, at: nat, n: nat, v: Value)
    requires body <= block && ReadsAs(body, at, n, v)
    ensures ReadsAs(block, at, n, v)
  {
    SameSlice(body, block, at, n);
  }

  lemma {:induction false} OffsetsAfter(start: seq<byte>, cells: seq<seq<byte>>, i: nat)
    requires Cells(cells) && i < |cells|
    ensures Offsets(start, cells)[i] >= |start|
  {
    if i < |cells| - 1 {
      OffsetsAfter(start, cells[..|cells| - 1], i);
    }
  }

  /** The header's three words are where the launched kernel reads them: the control address first, then the
      lock, then the workspace. */
  lemma HeaderDecodes(block: seq<byte>, ffts: nat, lock: nat, workspace: nat)
    requires ffts < Pow256(8) && lock < Pow256(8) && workspace < Pow256(8)
    requires SYSTEM_ARGS_SIZE <= |block| && block[..SYSTEM_ARGS_SIZE] == SystemArgs(ffts, lock, workspace)
    ensures FromBytes(block[0..8]) == ffts && FromBytes(block[8..16]) == lock && FromBytes(block[16..24]) == workspace
  {
    BytesRoundTrip(ffts, 8);
    BytesRoundTrip(lock, 8);
    BytesRoundTrip(workspace, 8);
    WordsOf(block, ToBytes(ffts, 8), ToBytes(lock, 8), ToBytes(workspace, 8));
  }

  lemma WordsOf(block: seq<byte>, a: seq<byte>, b: seq<byte>, c: seq<byte>)
    requires |a| == 8 && |b| == 8 && |c| == 8 && 24 <= |block| && block[..24] == a + b + c
    ensures block[0..8] == a && block[8..16] == b && block[16..24] == c
  {
    assert block[0..8] == block[..24][0..8] && block[8..16] == block[..24][8..16];
    assert block[16..24] == block[..24][16..24];
  }

  /** And the grid: the last twelve bytes. */
  lemma GridDecodes(body: seq<byte>, gx: int, gy: int, gz: int)
    requires -0x8000_0000 <= gx < 0x8000_0000 && -0x8000_0000 <= gy < 0x8000_0000 && -0x8000_0000 <= gz < 0x8000_0000
    ensures var block := Image(body, GridCells(gx, gy, gz));
            var at := |block| - 12;
            && at >= |body| && at % 4 == 0
            && Signed(FromBytes(block[at..at + 4]), 4) == gx
            && Signed(FromBytes(block[at + 4..at + 8]), 4) == gy
            && Signed(FromBytes(block[at + 8..at + 12]), 4) == gz
  {
    var a, b, c := ToBytes(Bits(gx, 4), 4), ToBytes(Bits(gy, 4), 4), ToBytes(Bits(gz, 4), 4);
    GridShape(body, a, b, c);
    WholeNumber(a, gx);
    WholeNumber(b, gy);
    WholeNumber(c, gz);
  }

  lemma WholeNumber(bytes: seq<byte>, x: int)
    requires -0x8000_0000 <= x < 0x8000_0000 && bytes == ToBytes(Bits(x, 4), 4)
    ensures Signed(FromBytes(bytes), 4) == x
  {
    LowBits32(0);
    SignedReadsBack(x, 4, 4);
    assert bytes[..4] == bytes;
  }

  lemma LastThree(s: seq<byte>, a: seq<byte>, b: seq<byte>, c: seq<byte>)
    requires |a| == 4 && |b| == 4 && |c| == 4
    ensures var t, at := s + a + b + c, |s|;
            t[at..at + 4] == a && t[at + 4..at + 8] == b && t[at + 8..at + 12] == c
  {
  }

  lemma AlignedAppend(s: seq<byte>, cell: seq<byte>)
    requires |s| % 4 == 0 && |cell| == 4
    ensures Appended(s, cell) == s + cell
  {
    assert Zeros(0) == [];
  }

  lemma GridParts(body: seq<byte>, a: seq<byte>, b: seq<byte>, c: seq<byte>) returns (head: seq<byte>)
    requires |a| == 4 && |b| == 4 && |c| == 4
    ensures Image(body, [a, b, c]) == head + a + b + c && |head| % 4 == 0 && |head| >= |body|
  {
    ThreeCells(body, a, b, c);
    var one := Appended(body, a);
    head := one[..|one| - 4];
    assert one == head + a;
    AlignedAppend(one, b);
    AlignedAppend(one + b, c);
  }

  lemma GridShape(body: seq<byte>, a: seq<byte>, b: seq<byte>, c: seq<byte>)
    requires |a| == 4 && |b| == 4 && |c| == 4
    ensures var block := Image(body, [a, b, c]);
            var at := |block| - 12;
            && at >= |body| && at % 4 == 0
            && block[at..at + 4] == a && block[at + 4..at + 8] == b && block[at + 8..at + 12] == c
  {
    var head := GridParts(body, a, b, c);
    LastThree(head, a, b, c);
  }
}
