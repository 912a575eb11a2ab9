/** How the Python side reads a kernel signature (scripts/standalone_compile.py, lines 226-237, 406-440 and
    513-666, Triton 3.3 and later): which parameters are constants and with what value, what the runtime types
    of the others are, and what is assumed about their values. */
module SignatureCompiler {
  import opened Numerals
  import opened Signature
  import opened JitToken

  // A Python float.
  datatype Float = Finite(r: real) | Infinite(negative: bool) | NotANumber

  // The value of a compile-time constant; a parameter that only says that it is constexpr has none.
  datatype Const =
    | NoneConst
    | BoolConst(b: bool)
    | IntConst(i: int)
    | FloatConst(x: Float)
    | CalleeConst(callee: Callee)
    | Unset
  {
    // Python's == with an integer.
    predicate Is(n: int) {
      match this
      case BoolConst(b) => n == if b then 1 else 0
      case IntConst(i) => i == n
      case FloatConst(Finite(r)) => r == n as real
      case _ => false
    }
  }

  // What int() reads whatever the version: newer ones refuse more than 4300 digits.
  predicate Numeral(s: string) {
    Decimal(s) && |s| <= 4300
  }

  // Python's own text functions: str.isspace, bytes.decode, int and float.
  datatype Python = Python(
    space: Spaces, utf8: seq<byte> -> bool, integer: string -> Option<int>, floating: string -> Option<Float>)
  {
    ghost predicate Valid() {
      Neutral(space) && forall s {:trigger Numeral(s)} :: Numeral(s) ==> integer(s) == Some(ReadDecimal(s))
    }
  }

  function Lower(c: char): char {
    if 'A' <= c <= 'Z' then (c as int + 32) as char else c
  }

  predicate Spells(s: string, word: string) {
    |s| == |word| && forall i :: 0 <= i < |s| ==> Lower(s[i]) == word[i]
  }

  // constexpr(); a text that is none of these reads as None too.
  function ReadConst(py: Python, s: string): Const {
    if s == "nullopt" then NoneConst
    else if Spells(s, "true") then BoolConst(true)
    else if Spells(s, "false") then BoolConst(false)
    else if py.integer(s).Some? then IntConst(py.integer(s).value)
    else if py.floating(s).Some? then FloatConst(py.floating(s).value)
    else NoneConst
  }

  datatype Parsed = One(name: string) | Many(names: seq<string>)

  predicate HasParenthesis(s: string) {
    '(' in s || ')' in s
  }

  // _parse_type_token
  function ParseTypeToken(space: Spaces, text: string): Option<Parsed> {
    var token := Trim(space, text);
    if token != [] && token[0] == '(' && token[|token| - 1] == ')' then
      var inner := Trim(space, token[1..|token| - 1]);
      var elements := Split(space, inner);
      if inner == [] || elements.None? || (exists i :: 0 <= i < |elements.value| && HasParenthesis(elements.value[i]))
      then None else Some(Many(elements.value))
    else Some(One(token))
  }

  const RANGE32 := "range32"

  // The range mark and the number among a token's hints.
  datatype Hints = Hints(range: bool, hint: Option<int>)

  // The specialization parts after a type, left to right.
  function ScanHints(py: Python, pointer: bool, parts: seq<string>, h: Hints): Option<Hints>
    decreases |parts|
  {
    if parts == [] then Some(h)
    else if parts[0] == RANGE32 then
      if !pointer || h.range then None else ScanHints(py, pointer, parts[1..], h.(range := true))
    else
      var c := ReadConst(py, parts[0]);
      if c.NoneConst? then ScanHints(py, pointer, parts[1..], h)
      else if !(c.Is(1) || c.Is(16)) || h.hint.Some? then None
      else ScanHints(py, pointer, parts[1..], h.(hint := Some(if c.Is(1) then 1 else 16)))
  }

  function TypeOf(py: Python, token: string): Option<Parsed> {
    ParseTypeToken(py.space, SplitOn(':', token)[0])
  }

  function HintsOf(py: Python, token: string): Option<Hints> {
    var fields := SplitOn(':', token);
    ScanHints(py, fields[0] != [] && fields[0][0] == '*', fields[1..], Hints(false, None))
  }

  // What the compiler makes of one parameter: a constant, or runtime values of these types, which it may assume
  // to be divisible by 16 and, for a pointer, within a 32-bit range.
  datatype Class = Constant(value: Const) | Runtime(types: seq<string>, aligned: bool, near: bool)

  function Types(p: Parsed): seq<string> {
    match p
    case One(name) => [name]
    case Many(names) => names
  }

  predicate IsJit(token: string) {
    |token| >= 5 && token[..5] == "@jit:"
  }

  // Ones become constants, absent arguments too; the rest are runtime parameters.
  function Assembled(parsed: Parsed, h: Hints): Class {
    if h.hint == Some(1) then Constant(IntConst(1))
    else if parsed == One("nullopt") then Constant(NoneConst)
    else if parsed == One("constexpr") then Constant(Unset)
    else Runtime(Types(parsed), h.hint == Some(16), h.range)
  }

  // What becomes of one parameter; None when reading its token raises.
  function ClassOf(py: Python, isConstexpr: bool, token: string): Option<Class> {
    if IsJit(token) then
      var callee := ParseToken(py.utf8, token);
      if callee.None? then None else Some(Constant(CalleeConst(callee.value)))
    else if isConstexpr then Some(Constant(ReadConst(py, token)))
    else
      var parsed, hints := TypeOf(py, token), HintsOf(py, token);
      if parsed.None? || hints.None? then None else Some(Assembled(parsed.value, hints.value))
  }

  function ClassesOf(py: Python, isConstexpr: seq<bool>, tokens: seq<string>): (r: seq<Option<Class>>)
    requires |isConstexpr| == |tokens|
    ensures |r| == |tokens| && forall i :: 0 <= i < |tokens| ==> r[i] == ClassOf(py, isConstexpr[i], tokens[i])
  {
    seq(|tokens|, i requires 0 <= i < |tokens| => ClassOf(py, isConstexpr[i], tokens[i]))
  }

  // The whole reading: None when anything raises.
  ghost predicate Reading(py: Python, isConstexpr: seq<bool>, text: string, r: Option<seq<Class>>) {
    var tokens := Split(py.space, text);
    if tokens.None? || |tokens.value| != |isConstexpr| then r.None?
    else
      var classes := ClassesOf(py, isConstexpr, tokens.value);
      if r.None? then exists i :: 0 <= i < |classes| && classes[i].None?
      else |r.value| == |classes| && forall i :: 0 <= i < |classes| ==> classes[i] == Some(r.value[i])
  }

  // ---- the procedure, pass by pass over dictionaries

  // _resolve_jitfunction_constants
  method ResolveCallees(py: Python, tokens: seq<string>) returns (constants: map<nat, Const>, ok: bool)
    ensures ok <==> forall i :: 0 <= i < |tokens| && IsJit(tokens[i]) ==> ParseToken(py.utf8, tokens[i]).Some?
    ensures ok ==> forall i: nat :: i in constants <==> i < |tokens| && IsJit(tokens[i])
    ensures ok ==> forall i: nat :: i in constants ==>
                     constants[i] == CalleeConst(ParseToken(py.utf8, tokens[i]).value)
  {
    constants, ok := map[], true;
    for i := 0 to |tokens|
      invariant forall k :: 0 <= k < i && IsJit(tokens[k]) ==> ParseToken(py.utf8, tokens[k]).Some?
      invariant forall k: nat :: k in constants <==> k < i && IsJit(tokens[k])
      invariant forall k: nat :: k in constants ==> constants[k] == CalleeConst(ParseToken(py.utf8, tokens[k]).value)
    {
      if IsJit(tokens[i]) {
        var callee := ParseToken(py.utf8, tokens[i]);
        if callee.None? {
          ok := false;
          return;
        }
        constants := constants[i := CalleeConst(callee.value)];
      }
    }
  }

  // First pass: callees, then the parameters declared constexpr.
  method FindConstants(py: Python, isConstexpr: seq<bool>, tokens: seq<string>)
    returns (constants: map<nat, Const>, ok: bool)
    requires |isConstexpr| == |tokens|
    ensures ok <==> forall i :: 0 <= i < |tokens| && IsJit(tokens[i]) ==> ParseToken(py.utf8, tokens[i]).Some?
    ensures ok ==> forall i: nat :: i in constants <==> i < |tokens| && (IsJit(tokens[i]) || isConstexpr[i])
    ensures ok ==> forall i: nat :: i in constants ==>
                     ClassOf(py, isConstexpr[i], tokens[i]) == Some(Constant(constants[i]))
  {
    constants, ok := ResolveCallees(py, tokens);
    if !ok {
      return;
    }
    for i := 0 to |tokens|
      invariant forall k: nat :: k in constants <==> k < |tokens| && (IsJit(tokens[k]) || (k < i && isConstexpr[k]))
      invariant forall k: nat :: k in constants ==>
                  ClassOf(py, isConstexpr[k], tokens[k]) == Some(Constant(constants[k]))
    {
      if isConstexpr[i] && i !in constants {
        constants := constants[i := ReadConst(py, tokens[i])];
      }
    }
  }

  // signature_without_spec
  method ParseTypes(py: Python, tokens: seq<string>, constants: map<nat, Const>)
    returns (types: map<nat, Parsed>, ok: bool)
    ensures ok <==> forall i: nat :: i < |tokens| && i !in constants ==> TypeOf(py, tokens[i]).Some?
    ensures ok ==> forall i: nat :: i in types <==> i < |tokens| && i !in constants
    ensures ok ==> forall i: nat :: i in types ==> Some(types[i]) == TypeOf(py, tokens[i])
  {
    types, ok := map[], true;
    for i := 0 to |tokens|
      invariant forall k: nat :: k < i && k !in constants ==> TypeOf(py, tokens[k]).Some?
      invariant forall k: nat :: k in types <==> k < i && k !in constants
      invariant forall k: nat :: k in types ==> Some(types[k]) == TypeOf(py, tokens[k])
    {
      if i !in constants {
        var parsed := TypeOf(py, tokens[i]);
        if parsed.None? {
          ok := false;
          return;
        }
        types := types[i := parsed.value];
      }
    }
  }

  // The hints of one token.
  method ReadHints(py: Python, token: string) returns (h: Hints, ok: bool)
    ensures HintsOf(py, token) == if ok then Some(h) else None
  {
    var fields := SplitOn(':', token);
    var pointer := fields[0] != [] && fields[0][0] == '*';
    h, ok := Hints(false, None), true;
    for i := 1 to |fields|
      invariant HintsOf(py, token) == ScanHints(py, pointer, fields[i..], h)
    {
      var part := fields[i];
      assert fields[i..][0] == part && fields[i..][1..] == fields[i + 1..];
      if part == RANGE32 {
        if !pointer || h.range {
          ok := false;
          return;
        }
        h := h.(range := true);
      } else {
        var c := ReadConst(py, part);
        if !c.NoneConst? {
          if !(c.Is(1) || c.Is(16)) || h.hint.Some? {
            ok := false;
            return;
          }
          h := h.(hint := Some(if c.Is(1) then 1 else 16));
        }
      }
    }
  }

  // The hints of the parameters that are not constant yet.
  method FindHints(py: Python, tokens: seq<string>, constants: map<nat, Const>)
    returns (hints: map<nat, Hints>, ok: bool)
    ensures ok <==> forall i: nat :: i < |tokens| && i !in constants ==> HintsOf(py, tokens[i]).Some?
    ensures ok ==> forall i: nat :: i in hints <==> i < |tokens| && i !in constants
    ensures ok ==> forall i: nat :: i in hints ==> Some(hints[i]) == HintsOf(py, tokens[i])
  {
    hints, ok := map[], true;
    for i := 0 to |tokens|
      invariant forall k: nat :: k < i && k !in constants ==> HintsOf(py, tokens[k]).Some?
      invariant forall k: nat :: k in hints <==> k < i && k !in constants
      invariant forall k: nat :: k in hints ==> Some(hints[k]) == HintsOf(py, tokens[k])
    {
      if i !in constants {
        var h, good := ReadHints(py, tokens[i]);
        if !good {
          ok := false;
          return;
        }
        hints := hints[i := h];
      }
    }
  }

  // The last passes, over what the dictionaries hold.
  method Assemble(py: Python, isConstexpr: seq<bool>, tokens: seq<string>, constants: map<nat, Const>,
                  types: map<nat, Parsed>, hints: map<nat, Hints>)
    returns (result: seq<Class>)
    requires |isConstexpr| == |tokens|
    requires forall i: nat :: i in constants <==> i < |tokens| && (IsJit(tokens[i]) || isConstexpr[i])
    requires forall i: nat :: i in constants ==>
               ClassOf(py, isConstexpr[i], tokens[i]) == Some(Constant(constants[i]))
    requires forall i: nat :: i < |tokens| && i !in constants ==> i in types && i in hints
    requires forall i: nat :: i in types ==> i < |tokens| && TypeOf(py, tokens[i]) == Some(types[i])
    requires forall i: nat :: i in hints ==> i < |tokens| && HintsOf(py, tokens[i]) == Some(hints[i])
    ensures |result| == |tokens|
    ensures forall i :: 0 <= i < |tokens| ==> ClassOf(py, isConstexpr[i], tokens[i]) == Some(result[i])
  {
    result := [];
    for i := 0 to |tokens|
      invariant |result| == i
      invariant forall k :: 0 <= k < i ==> ClassOf(py, isConstexpr[k], tokens[k]) == Some(result[k])
    {
      if i in constants {
        result := result + [Constant(constants[i])];
      } else {
        result := result + [Assembled(types[i], hints[i])];
      }
    }
  }

  lemma OneRaises(py: Python, isConstexpr: seq<bool>, tokens: seq<string>, i: nat)
    requires |isConstexpr| == |tokens| && i < |tokens|
    requires if IsJit(tokens[i]) then ParseToken(py.utf8, tokens[i]).None?
             else !isConstexpr[i] && (TypeOf(py, tokens[i]).None? || HintsOf(py, tokens[i]).None?)
    ensures ClassesOf(py, isConstexpr, tokens)[i].None?
  {
  }

  /** The signature part of _compile_a_kernel reads every parameter as ClassOf says, and raises exactly
      when splitting or some parameter does. */
  method CompileSignature(py: Python, isConstexpr: seq<bool>, text: string) returns (r: Option<seq<Class>>)
    ensures Reading(py, isConstexpr, text, r)
  {
    var split := BracketAwareSplit(py.space, text);
    if split.None? || |split.value| != |isConstexpr| {
      return None;
    }
    var tokens := split.value;
    var constants, ok := FindConstants(py, isConstexpr, tokens);
    if !ok {
      ghost var i :| 0 <= i < |tokens| && IsJit(tokens[i]) && ParseToken(py.utf8, tokens[i]).None?;
      OneRaises(py, isConstexpr, tokens, i);
      return None;
    }
    var types;
    types, ok := ParseTypes(py, tokens, constants);
    if !ok {
      ghost var i: nat :| i < |tokens| && i !in constants && TypeOf(py, tokens[i]).None?;
      OneRaises(py, isConstexpr, tokens, i);
      return None;
    }
    var hints;
    hints, ok := FindHints(py, tokens, constants);
    if !ok {
      ghost var i: nat :| i < |tokens| && i !in constants && HintsOf(py, tokens[i]).None?;
      OneRaises(py, isConstexpr, tokens, i);
      return None;
    }
    var result := Assemble(py, isConstexpr, tokens, constants, types, hints);
    return Some(result);
  }
}
