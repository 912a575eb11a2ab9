/** The two ends of a kernel call: ArgHandle packs the arguments and prints a signature
    (include/triton_jit/triton_jit_function.h, lines 122-374 and 464-482); the compiler reads that
    signature and decides which parameters are runtime arguments
    (scripts/standalone_compile.py, lines 226-237 and 513-666, Triton 3.3 and later). */
module ArgEmitter {
  import opened Numerals
  import opened Signature
  import opened JitToken
  import opened ParameterBuffer

  datatype ArgType = NonConstexpr | Specialized | Constexpr | SpecializedNoAlignment

  // The build decides which hints exist at all.
  datatype Backend = Npu | Hcu | OtherBackend

  datatype Dtype =
    Float | Double | Half | BFloat16 | Int | Long | Short | UInt32 | UInt64 | UInt16 | Char
    | Float8E4m3fn | Byte | Boolean | Unsupported

  function DtypeName(t: Dtype): Option<string> {
    match t
    case Float => Some("fp32")
    case Double => Some("fp64")
    case Half => Some("fp16")
    case BFloat16 => Some("bf16")
    case Int => Some("i32")
    case Long => Some("i64")
    case Short => Some("i16")
    case UInt32 => Some("u32")
    case UInt64 => Some("u64")
    case UInt16 => Some("u16")
    case Char => Some("i8")
    case Float8E4m3fn => Some("fp8e4nv")
    case Byte => Some("u8")
    case Boolean => Some("i1")
    case Unsupported => None
  }

  // `text` is what fmt prints for a floating-point value.
  datatype Number =
    | Truth(b: bool)
    | Whole(ctype: CType, v: int)
    | Fraction(ctype: CType, bits: nat, text: string)
  {
    predicate Valid() {
      match this
      case Truth(_) => true
      case Whole(t, v) =>
        && t in {CInt, CUint, CLong, CUlong}
        && (t == CInt ==> -0x8000_0000 <= v < 0x8000_0000)
        && (t == CUint ==> 0 <= v < 0x1_0000_0000)
        && (t == CLong ==> -0x8000_0000_0000_0000 <= v < 0x8000_0000_0000_0000)
        && (t == CUlong ==> 0 <= v < 0x1_0000_0000_0000_0000)
      case Fraction(t, bits, text) =>
        t in {CFloat, CDouble} && bits < Pow256(Size(t)) && text != [] && Plain(text) && ':' !in text
    }

    function AsValue(): Value {
      match this
      case Truth(b) => Value(CBool, if b then 1 else 0)
      case Whole(t, v) => Value(t, Bits(v, Size(t)))
      case Fraction(t, bits, _) => Value(t, bits)
    }

    // As the integer arithmetic of the hints sees it.
    function AsInt(): int {
      match this
      case Truth(b) => if b then 1 else 0
      case Whole(_, v) => v
      case Fraction(_, _, _) => 0
    }

    // fmt::format("{}", item)
    function Format(): string {
      match this
      case Truth(b) => if b then "true" else "false"
      case Whole(_, v) => ShowInt(v)
      case Fraction(_, _, text) => text
    }
  }

  // triton_type<T>::name
  function TypeName(t: CType): string {
    match t
    case CBool => "i1"
    case CInt => "i32"
    case CUint => "u32"
    case CLong => "i64"
    case CUlong => "u64"
    case CFloat => "fp32"
    case CDouble => "fp64"
    case CPointer => "*i8"
  }

  // narrow_type_name: signed integers are named after the range they fall into.
  function NarrowTypeName(n: Number): string {
    match n
    case Truth(_) => "i1"
    case Whole(t, v) =>
      if t in {CUint, CUlong} then TypeName(t)
      else if -0x8000_0000 <= v <= 0x7FFF_FFFF then "i32" else "i64"
    case Fraction(t, _, _) => TypeName(t)
  }

  datatype Item =
    | Tensor(dtype: Dtype, address: nat, storage: Option<nat>)
    | DevicePtr(dtype: Dtype, address: nat, extent: Option<nat>)
    | Scalar(number: Option<Number>)     // c10::Scalar; None when its type is not supported
    | Plainly(n: Number)
    | Text(s: string)
    | Absent                             // std::nullopt, or an empty optional
    | Present(inner: Item)               // a filled optional
    | Tuple(elements: seq<Number>)
    | Jit(path: seq<byte>, name: seq<byte>, fingerprint: string)

  // ---- what the emitter does with one argument

  datatype Emission = Emission(values: seq<Value>, token: string)

  function Spec(v: int): string {
    if v % 16 == 0 then ":16" else if v == 1 then ":1" else ""
  }

  function PtrSpec(address: nat): string {
    if address % 16 == 0 then ":16" else ""
  }

  const RANGE32_MAX: nat := 2147483647

  function PtrRangeSpec(backend: Backend, kind: ArgType, extent: Option<nat>): string {
    if backend == Hcu && kind in {Specialized, SpecializedNoAlignment} && extent.Some? && extent.value <= RANGE32_MAX
    then ":range32" else ""
  }

  function EmitPointer(backend: Backend, kind: ArgType, dtype: Dtype, address: nat,
                       extent: Option<nat>): Option<Emission> {
    if kind == Constexpr || DtypeName(dtype).None? then None
    else
      var hint := if kind == Specialized && backend != Npu then PtrSpec(address) else "";
      Some(Emission([Value(CPointer, address)],
                    "*" + DtypeName(dtype).value + hint + PtrRangeSpec(backend, kind, extent)))
  }

  function EmitNumber(backend: Backend, kind: ArgType, n: Number): Emission {
    if kind == Constexpr then Emission([], n.Format())
    else if n.Fraction? || kind == NonConstexpr || backend == Npu then Emission([n.AsValue()], NarrowTypeName(n))
    else
      var hint := if kind == Specialized then Spec(n.AsInt()) else if n.AsInt() == 1 then ":1" else "";
      Emission(if hint == ":1" then [] else [n.AsValue()], NarrowTypeName(n) + hint)
  }

  function Names(elements: seq<Number>): (r: seq<string>)
    ensures |r| == |elements|
  {
    seq(|elements|, i requires 0 <= i < |elements| => TypeName(elements[i].AsValue().ctype))
  }

  function Values(elements: seq<Number>): (r: seq<Value>)
    ensures |r| == |elements|
  {
    seq(|elements|, i requires 0 <= i < |elements| => elements[i].AsValue())
  }

  // `slot` is the parameter's kind, None past the end of the static signature; None is an exception.
  function Emit(backend: Backend, slot: Option<ArgType>, item: Item): Option<Emission>
    decreases item
  {
    match item
    case Text(s) => Some(Emission([], s))
    case Absent => Some(Emission([], "nullopt"))
    case Present(inner) => Emit(backend, slot, inner)
    case Tensor(dtype, address, storage) =>
      if slot.None? then None else EmitPointer(backend, slot.value, dtype, address, storage)
    case DevicePtr(dtype, address, extent) =>
      if slot.None? then None else EmitPointer(backend, slot.value, dtype, address, extent)
    case Scalar(number) =>
      if slot.None? || number.None? then None else Some(EmitNumber(backend, slot.value, number.value))
    case Plainly(n) => if slot.None? then None else Some(EmitNumber(backend, slot.value, n))
    case Tuple(elements) =>
      if slot.None? || slot.value == Constexpr then None
      else Some(Emission(Values(elements), "(" + JoinSig(Names(elements)) + ")"))
    case Jit(path, name, fingerprint) =>
      if slot.None? then None else Some(Emission([], SignatureToken(path, name, fingerprint)))
  }

  // What a slot does not take. Past the static signature only strings and absent arguments pass.
  predicate Refused(slot: Option<ArgType>, item: Item)
    decreases item
  {
    match item
    case Text(_) => false
    case Absent => false
    case Present(inner) => Refused(slot, inner)
    case Tensor(dtype, _, _) => slot in {None, Some(Constexpr)} || dtype == Unsupported
    case DevicePtr(dtype, _, _) => slot in {None, Some(Constexpr)} || dtype == Unsupported
    case Scalar(number) => slot == None || number == None
    case Plainly(_) => slot == None
    case Tuple(_) => slot in {None, Some(Constexpr)}
    case Jit(_, _, _) => slot == None
  }

  /** An argument raises an exception exactly where its slot does not take it. */
  lemma {:induction false} EmitRefuses(backend: Backend, slot: Option<ArgType>, item: Item)
    ensures Emit(backend, slot, item).None? <==> Refused(slot, item)
    decreases item
  {
    if item.Present? {
      EmitRefuses(backend, slot, item.inner);
    }
  }

  lemma GroupNext(elements: seq<Number>, i: nat, was: seq<Value>)
    requires i < |elements|
    ensures "(" + JoinSig(Names(elements)[..i + 1])
         == "(" + JoinSig(Names(elements)[..i]) + (if i > 0 then "," else "") + TypeName(elements[i].AsValue().ctype)
    ensures was + Values(elements)[..i + 1] == was + Values(elements)[..i] + [elements[i].AsValue()]
  {
    var names := Names(elements);
    assert names[..i + 1][..i] == names[..i];
    assert names[..i + 1][i] == names[i];
  }

  lemma AllElements(elements: seq<Number>)
    ensures Names(elements)[..|elements|] == Names(elements) && Values(elements)[..|elements|] == Values(elements)
  {
  }

  class ArgHandle {
    const ssig: seq<ArgType>
    const backend: Backend
    const buf: Buffer
    var signature: seq<string>
    var idx: nat

    constructor (backend: Backend, ssig: seq<ArgType>)
      ensures Valid() && fresh(buf) && this.backend == backend && this.ssig == ssig
      ensures buf.values == [] && signature == [] && idx == 0
    {
      this.backend, this.ssig, signature, idx := backend, ssig, [], 0;
      buf := new Buffer();
    }

    ghost predicate Valid()
      reads this, buf
    {
      buf.Valid()
    }

    function Slot(): Option<ArgType>
      reads this
    {
      if idx < |ssig| then Some(ssig[idx]) else None
    }

    // What one handled argument does to the three things the caller sees.
    twostate predicate Handled(e: Emission)
      reads this, buf
    {
      && Valid()
      && buf.values == old(buf.values) + e.values
      && signature == old(signature) + [e.token]
      && idx == old(idx) + 1
    }

    // What an exception leaves behind: earlier tokens and values as they were. The pointer of a tensor
    // with an unsupported dtype has been pushed by then.
    twostate predicate Threw()
      reads this, buf
    {
      Valid() && old(buf.values) <= buf.values && signature == old(signature) && idx == old(idx)
    }

    /** handle_arg: one slot, one token, and the values of its emission; or an exception. */
    method HandleArg(item: Item) returns (ok: bool)
      requires Valid()
      modifies this, buf
      ensures ok <==> Emit(backend, old(Slot()), item).Some?
      ensures ok ==> Handled(Emit(backend, old(Slot()), item).value)
      ensures !ok ==> Threw()
      decreases item
    {
      match item
      case Present(inner) =>
        ok := HandleArg(inner);
      case Absent =>
        signature, idx, ok := signature + ["nullopt"], idx + 1, true;
      case Text(s) =>
        signature, idx, ok := signature + [s], idx + 1, true;
      case Scalar(number) =>
        if number.None? {
          return false;
        }
        ok := HandleNumber(number.value);
      case Plainly(n) =>
        ok := HandleNumber(n);
      case Tensor(dtype, address, storage) =>
        ok := HandlePointer(dtype, address, storage);
      case DevicePtr(dtype, address, extent) =>
        ok := HandlePointer(dtype, address, extent);
      case Tuple(elements) =>
        ok := HandleTuple(elements);
      case Jit(path, name, fingerprint) =>
        if idx >= |ssig| {
          return false;
        }
        signature, idx, ok := signature + [SignatureToken(path, name, fingerprint)], idx + 1, true;
    }

    // handle_tensor and handle_device_ptr.
    method HandlePointer(dtype: Dtype, address: nat, extent: Option<nat>) returns (ok: bool)
      requires Valid()
      modifies this, buf
      ensures ok <==> old(Slot()).Some? && EmitPointer(backend, old(Slot()).value, dtype, address, extent).Some?
      ensures ok ==> Handled(EmitPointer(backend, old(Slot()).value, dtype, address, extent).value)
      ensures !ok ==> Threw()
    {
      if idx >= |ssig| || ssig[idx] == Constexpr {
        return false;
      }
      buf.PushArg(Value(CPointer, address));
      var name := DtypeName(dtype);
      if name.None? {
        return false;
      }
      var specialization := "";
      if ssig[idx] == Specialized && backend != Npu {
        specialization := PtrSpec(address);
      }
      var range := PtrRangeSpec(backend, ssig[idx], extent);
      signature := signature + ["*" + name.value + specialization + range];
      idx := idx + 1;
      ok := true;
    }

    // handle_constexpr, handle_specialized, handle_specialized_no_alignment, handle_non_constexpr.
    method HandleNumber(n: Number) returns (ok: bool)
      requires Valid()
      modifies this, buf
      ensures ok <==> old(Slot()).Some?
      ensures ok ==> Handled(EmitNumber(backend, old(Slot()).value, n))
      ensures !ok ==> Threw()
    {
      if idx >= |ssig| {
        return false;
      }
      var kind := ssig[idx];
      var token := "";
      if kind == Constexpr {
        token := n.Format();
      } else if n.Fraction? || kind == NonConstexpr || backend == Npu {
        buf.PushArg(n.AsValue());
        token := NarrowTypeName(n);
      } else if kind == Specialized {
        var specialization := Spec(n.AsInt());
        if specialization != ":1" {
          buf.PushArg(n.AsValue());
        }
        token := NarrowTypeName(n) + specialization;
      } else {
        var equalTo1 := n.AsInt() == 1;
        if !equalTo1 {
          buf.PushArg(n.AsValue());
        }
        token := NarrowTypeName(n) + if equalTo1 then ":1" else "";
      }
      signature, idx, ok := signature + [token], idx + 1, true;
    }

    // handle_tuple.
    method HandleTuple(elements: seq<Number>) returns (ok: bool)
      requires Valid()
      modifies this, buf
      ensures ok <==> Emit(backend, old(Slot()), Tuple(elements)).Some?
      ensures ok ==> Handled(Emit(backend, old(Slot()), Tuple(elements)).value)
      ensures !ok ==> Threw()
    {
      if idx >= |ssig| || ssig[idx] == Constexpr {
        return false;
      }
      var grouped := PushElements(elements);
      signature, idx, ok := signature + [grouped], idx + 1, true;
    }

    method PushElements(elements: seq<Number>) returns (grouped: string)
      requires Valid()
      modifies buf
      ensures Valid() && buf.values == old(buf.values) + Values(elements)
      ensures grouped == "(" + JoinSig(Names(elements)) + ")"
    {
      grouped := "(";
      ghost var was := buf.values;
      for i := 0 to |elements|
        invariant Valid()
        invariant grouped == "(" + JoinSig(Names(elements)[..i])
        invariant buf.values == was + Values(elements)[..i]
      {
        GroupNext(elements, i, was);
        if i > 0 {
          grouped := grouped + ",";
        }
        buf.PushArg(elements[i].AsValue());
        grouped := grouped + TypeName(elements[i].AsValue().ctype);
      }
      AllElements(elements);
      grouped := grouped + ")";
    }

    method AppendGlobalScratch()
      requires Valid()
      modifies this, buf
      ensures Valid() && signature == old(signature) && idx == old(idx)
      ensures buf.values == old(buf.values) + [Value(CPointer, 0)]
    {
      buf.PushArg(Value(CPointer, 0));
    }
  }

  // ---- a whole argument list

  function SlotAt(ssig: seq<ArgType>, i: nat): Option<ArgType> {
    if i < |ssig| then Some(ssig[i]) else None
  }

  // Argument i goes to slot i.
  function EmitEach(backend: Backend, ssig: seq<ArgType>, items: seq<Item>): (r: seq<Option<Emission>>)
    ensures |r| == |items|
    ensures forall i :: 0 <= i < |items| ==> r[i] == Emit(backend, SlotAt(ssig, i), items[i])
  {
    seq(|items|, i requires 0 <= i < |items| => Emit(backend, SlotAt(ssig, i), items[i]))
  }

  predicate AllSome(es: seq<Option<Emission>>) {
    forall i :: 0 <= i < |es| ==> es[i].Some?
  }

  function AllValues(es: seq<Option<Emission>>): seq<Value>
    requires AllSome(es)
  {
    if es == [] then [] else AllValues(es[..|es| - 1]) + es[|es| - 1].value.values
  }

  function AllTokens(es: seq<Option<Emission>>): (r: seq<string>)
    requires AllSome(es)
    ensures |r| == |es| && forall i :: 0 <= i < |es| ==> r[i] == es[i].value.token
  {
    seq(|es|, i requires 0 <= i < |es| => es[i].value.token)
  }

  // What the backend adds after the arguments.
  function Scratch(backend: Backend): seq<Value> {
    if backend == Npu then [] else [Value(CPointer, 0), Value(CPointer, 0)]
  }

  lemma OneMore(es: seq<Option<Emission>>, n: nat)
    requires n < |es| && AllSome(es[..n]) && es[n].Some?
    ensures AllSome(es[..n + 1])
    ensures AllValues(es[..n + 1]) == AllValues(es[..n]) + es[n].value.values
    ensures AllTokens(es[..n + 1]) == AllTokens(es[..n]) + [es[n].value.token]
  {
    assert es[..n + 1][..n] == es[..n];
  }

  /** operator(): every argument in order, then two null scratch pointers (none on NPU). */
  method Call(backend: Backend, ssig: seq<ArgType>, items: seq<Item>)
    returns (buf: Buffer, signature: string, ok: bool)
    ensures ok <==> AllSome(EmitEach(backend, ssig, items))
    ensures ok ==>
              var es := EmitEach(backend, ssig, items);
              && buf.Valid() && buf.values == AllValues(es) + Scratch(backend)
              && signature == JoinSig(AllTokens(es))
  {
    var handler := new ArgHandle(backend, ssig);
    ok := HandleArgs(handler, items);
    buf, signature := handler.buf, "";
    if ok {
      if backend != Npu {
        handler.AppendGlobalScratch();
        handler.AppendGlobalScratch();
      }
      signature := JoinSigStream(handler.signature);
    }
  }

  method HandleArgs(handler: ArgHandle, items: seq<Item>) returns (ok: bool)
    requires handler.Valid() && handler.idx == 0 && handler.signature == [] && handler.buf.values == []
    modifies handler, handler.buf
    ensures ok <==> AllSome(EmitEach(handler.backend, handler.ssig, items))
    ensures ok ==>
              var es := EmitEach(handler.backend, handler.ssig, items);
              handler.Valid() && handler.buf.values == AllValues(es) && handler.signature == AllTokens(es)
  {
    ghost var es := EmitEach(handler.backend, handler.ssig, items);
    var n := 0;
    while n < |items|
      invariant 0 <= n <= |items| && handler.Valid() && handler.idx == n
      invariant AllSome(es[..n])
      invariant handler.buf.values == AllValues(es[..n]) && handler.signature == AllTokens(es[..n])
    {
      ok := handler.HandleArg(items[n]);
      if !ok {
        assert es[n].None?;
        return;
      }
      OneMore(es, n);
      n := n + 1;
    }
    assert es[..n] == es;
    ok := true;
  }
}
