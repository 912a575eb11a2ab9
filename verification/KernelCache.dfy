/** The compiled-kernel cache: its text key (include/triton_jit/jit_utils.h, lines 60-106) and the
    look-up, compile, try_emplace protocol around it (src/triton_jit_function.cpp, lines 95-155). */
module KernelCache {
  import opened Numerals

  datatype Option<+T> = None | Some(value: T)

  // CompileOptions; `extra` is what iterating the std::map yields, ascending by name.
  datatype CompileOptions = CompileOptions(numWarps: int, numStages: int, extra: seq<(string, string)>)

  datatype Request = Request(signature: string, device: int, opts: CompileOptions)

  predicate Reserved(opts: CompileOptions) {
    exists i :: 0 <= i < |opts.extra| && opts.extra[i].0 in {"num_warps", "num_stages"}
  }

  // Tagged, length-prefixed fields: `append_cache_key_field` after each tag.
  type Fields = seq<(string, string)>

  function FieldText(fs: Fields): string {
    if fs == [] then "" else fs[0].0 + (Field(fs[0].1) + FieldText(fs[1..]))
  }

  function ExtraFields(extra: seq<(string, string)>): (fs: Fields)
    ensures |fs| == 2 * |extra|
    ensures forall i :: 0 <= i < |extra| ==>
              fs[2 * i] == (";name=", extra[i].0) && fs[2 * i + 1] == (";value=", extra[i].1)
  {
    seq(2 * |extra|, i requires 0 <= i < 2 * |extra| =>
      if i % 2 == 0 then (";name=", extra[i / 2].0) else (";value=", extra[i / 2].1))
  }

  function KeyFields(r: Request): (fs: Fields)
    ensures |fs| == 5 + 2 * |r.opts.extra|
  {
    [("sig=", r.signature), (";dev=", ShowInt(r.device)), (";nw=", ShowInt(r.opts.numWarps)),
     (";ns=", ShowInt(r.opts.numStages)), (";extra=", ShowNat(|r.opts.extra|))] + ExtraFields(r.opts.extra)
  }

  function KeyText(r: Request): string {
    FieldText(KeyFields(r))
  }

  // make_kernel_cache_key; None is the exception for a reserved option name.
  function CacheKey(r: Request): Option<string> {
    if Reserved(r.opts) then None else Some(KeyText(r))
  }

  lemma {:induction false} FieldTextAppend(fs: Fields, f: (string, string))
    ensures FieldText(fs + [f]) == FieldText(fs) + f.0 + Field(f.1)
  {
    if fs == [] {
      assert fs + [f] == [f] && [f][1..] == [];
      assert f.0 + (Field(f.1) + "") == "" + f.0 + Field(f.1);
    } else {
      FieldTextAppend(fs[1..], f);
      assert (fs + [f])[1..] == fs[1..] + [f];
      assert fs[0].0 + (Field(fs[0].1) + (FieldText(fs[1..]) + f.0 + Field(f.1)))
          == fs[0].0 + (Field(fs[0].1) + FieldText(fs[1..])) + f.0 + Field(f.1);
    }
  }

  // validate_compile_options
  method ValidateCompileOptions(opts: CompileOptions) returns (ok: bool)
    ensures ok <==> !Reserved(opts)
  {
    for i := 0 to |opts.extra|
      invariant forall k :: 0 <= k < i ==> opts.extra[k].0 !in {"num_warps", "num_stages"}
    {
      if opts.extra[i].0 in {"num_warps", "num_stages"} {
        return false;
      }
    }
    return true;
  }

  // Field after field is appended.
  method AppendFields(fs: Fields) returns (key: string)
    ensures key == FieldText(fs)
  {
    key := "";
    for i := 0 to |fs|
      invariant key == FieldText(fs[..i])
    {
      FieldTextAppend(fs[..i], fs[i]);
      assert fs[..i] + [fs[i]] == fs[..i + 1];
      key := key + fs[i].0;
      key := key + Field(fs[i].1);
    }
    assert fs[..|fs|] == fs;
  }

  /** Building the key: reserved names are refused, then the fields are written. */
  method MakeKernelCacheKey(r: Request) returns (key: string, ok: bool)
    ensures CacheKey(r) == if ok then Some(key) else None
  {
    key := "";
    ok := ValidateCompileOptions(r.opts);
    if ok {
      key := AppendFields(KeyFields(r));
    }
  }

  // ---- the key separates requests

  lemma Peel(a: Fields, b: Fields)
    requires a != [] && b != [] && a[0].0 == b[0].0 && FieldText(a) == FieldText(b)
    ensures a[0] == b[0] && FieldText(a[1..]) == FieldText(b[1..])
  {
    TagSplits(a[0].0, Field(a[0].1) + FieldText(a[1..]), Field(b[0].1) + FieldText(b[1..]));
    FieldSplits(a[0].1, FieldText(a[1..]), b[0].1, FieldText(b[1..]));
  }

  // Texts with the same first n tags have the same first n values.
  lemma {:induction false} SamePrefix(a: Fields, b: Fields, n: nat)
    requires n <= |a| && n <= |b| && FieldText(a) == FieldText(b)
    requires forall i :: 0 <= i < n ==> a[i].0 == b[i].0
    ensures a[..n] == b[..n]
  {
    if n > 0 {
      Peel(a, b);
      SamePrefix(a[1..], b[1..], n - 1);
      assert a[..n] == [a[0]] + a[1..][..n - 1];
      assert b[..n] == [b[0]] + b[1..][..n - 1];
    }
  }

  lemma SameExtra(a: seq<(string, string)>, b: seq<(string, string)>)
    requires |a| == |b| && ExtraFields(a) == ExtraFields(b)
    ensures a == b
  {
    forall i | 0 <= i < |a|
      ensures a[i] == b[i]
    {
      assert ExtraFields(a)[2 * i] == ExtraFields(b)[2 * i];
      assert ExtraFields(a)[2 * i + 1] == ExtraFields(b)[2 * i + 1];
    }
  }

  lemma SameTags(a: Request, b: Request, i: nat)
    requires i < |KeyFields(a)| && i < |KeyFields(b)|
    ensures KeyFields(a)[i].0 == KeyFields(b)[i].0
  {
    if i >= 5 {
      assert KeyFields(a)[i] == ExtraFields(a.opts.extra)[i - 5];
      assert KeyFields(b)[i] == ExtraFields(b.opts.extra)[i - 5];
    }
  }

  lemma SameNumbers(a: Request, b: Request)
    requires KeyFields(a)[..5] == KeyFields(b)[..5]
    ensures a.signature == b.signature && a.device == b.device
    ensures a.opts.numWarps == b.opts.numWarps && a.opts.numStages == b.opts.numStages
    ensures |a.opts.extra| == |b.opts.extra|
  {
    var fa, fb := KeyFields(a)[..5], KeyFields(b)[..5];
    assert forall i :: 0 <= i < 5 ==> fa[i].1 == fb[i].1;
    assert fa[0].1 == a.signature && fb[0].1 == b.signature;
    ShowIntInjective(a.device, b.device);
    ShowIntInjective(a.opts.numWarps, b.opts.numWarps);
    ShowIntInjective(a.opts.numStages, b.opts.numStages);
    ReadShowNat(|a.opts.extra|);
    ReadShowNat(|b.opts.extra|);
  }

  /** The key decodes uniquely: equal keys come from equal requests, whatever bytes the signature and
      the options hold. */
  lemma KeyInjective(a: Request, b: Request)
    requires KeyText(a) == KeyText(b)
    ensures a == b
  {
    forall i | 0 <= i < |KeyFields(a)| && i < |KeyFields(b)|
      ensures KeyFields(a)[i].0 == KeyFields(b)[i].0
    {
      SameTags(a, b, i);
    }
    SamePrefix(KeyFields(a), KeyFields(b), 5);
    SameNumbers(a, b);
    SamePrefix(KeyFields(a), KeyFields(b), |KeyFields(a)|);
    assert ExtraFields(a.opts.extra) == KeyFields(a)[..|KeyFields(a)|][5..];
    assert ExtraFields(b.opts.extra) == KeyFields(b)[..|KeyFields(b)|][5..];
    SameExtra(a.opts.extra, b.opts.extra);
  }
}
