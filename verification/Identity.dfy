/** The strings that name kernels and pending requests (src/tuned_config.cpp, lines 455-459 and
    839-852). Two different requests must never share a name, or one would be handed the other's
    configuration. */
module Identity {
  import opened Numerals

  function ScopedKernelId(kernel: string, space: string): string {
    if space == "" then kernel
    else "@" + ShowNat(|space|) + ":" + space + ":" + kernel
  }

  lemma ScopedShape(kernel: string, space: string)
    requires space != ""
    ensures ScopedKernelId(kernel, space) == "@" + (Field(space) + (":" + kernel))
  {
  }

  lemma ScopedBothNamed(k1: string, n1: string, k2: string, n2: string)
    requires n1 != "" && n2 != "" && ScopedKernelId(k1, n1) == ScopedKernelId(k2, n2)
    ensures k1 == k2 && n1 == n2
  {
    ScopedShape(k1, n1);
    ScopedShape(k2, n2);
    TagSplits("@", Field(n1) + (":" + k1), Field(n2) + (":" + k2));
    FieldSplits(n1, ":" + k1, n2, ":" + k2);
    TagSplits(":", k1, k2);
  }

  /** Exactly when two scoped ids collide: never, unless one is an unscoped kernel whose bare name
      spells out the other's whole scoped id. */
  lemma ScopedKernelIdCollision(k1: string, n1: string, k2: string, n2: string)
    ensures ScopedKernelId(k1, n1) == ScopedKernelId(k2, n2) <==>
            || (k1 == k2 && n1 == n2)
            || (n1 == "" && n2 != "" && k1 == ScopedKernelId(k2, n2))
            || (n2 == "" && n1 != "" && k2 == ScopedKernelId(k1, n1))
  {
    if ScopedKernelId(k1, n1) == ScopedKernelId(k2, n2) && n1 != "" && n2 != "" {
      ScopedBothNamed(k1, n1, k2, n2);
    }
  }

  // A Triton function name: a Python identifier has neither '@' nor is it empty.
  predicate KernelName(k: string) {
    k != "" && Free('@', k)
  }

  /** Kernel names being identifiers, scoped ids separate (kernel, namespace) pairs. */
  lemma ScopedKernelIdInjective(k1: string, n1: string, k2: string, n2: string)
    requires KernelName(k1) && KernelName(k2)
    requires ScopedKernelId(k1, n1) == ScopedKernelId(k2, n2)
    ensures k1 == k2 && n1 == n2
  {
    ScopedKernelIdCollision(k1, n1, k2, n2);
    assert n1 != "" ==> ScopedKernelId(k1, n1)[0] == '@';
    assert n2 != "" ==> ScopedKernelId(k2, n2)[0] == '@';
  }

  // ---- tokens of pending requests

  function Joined(fields: seq<string>): string {
    if fields == [] then "" else "," + fields[0] + Joined(fields[1..])
  }

  function Fields(dims: seq<int>, dtypes: seq<string>): (r: seq<string>)
    ensures |r| == |dims| + |dtypes|
  {
    seq(|dims|, i requires 0 <= i < |dims| => ShowInt(dims[i])) + dtypes
  }

  // inflight_key: storage id, '@', device, then every dimension and dtype after a comma.
  function FlightToken(storageId: string, device: nat, dims: seq<int>, dtypes: seq<string>): string {
    storageId + "@" + ShowInt(device) + Joined(Fields(dims, dtypes))
  }

  ghost predicate CommaFree(fields: seq<string>) {
    forall i :: 0 <= i < |fields| ==> Free(',', fields[i])
  }

  lemma JoinedHead(fields: seq<string>)
    ensures exists x: string :: Joined(fields) + "," == "," + x
  {
    if fields != [] {
      assert Joined(fields) + "," == "," + (fields[0] + Joined(fields[1..]) + ",");
    } else {
      assert Joined(fields) + "," == "," + "";
    }
  }

  // Text that starts with comma-free words is cut at the first comma, or at its end.
  lemma WordSplits(a: string, f: seq<string>, b: string, g: seq<string>)
    requires Free(',', a) && Free(',', b)
    requires a + Joined(f) == b + Joined(g)
    ensures a == b && Joined(f) == Joined(g)
  {
    JoinedHead(f);
    JoinedHead(g);
    var x: string :| Joined(f) + "," == "," + x;
    var y: string :| Joined(g) + "," == "," + y;
    assert a + [','] + x == a + (Joined(f) + ",") == (a + Joined(f)) + ",";
    assert b + [','] + y == b + (Joined(g) + ",") == (b + Joined(g)) + ",";
    SeparatorSplits(',', a, x, b, y);
    TagSplits(a, Joined(f), Joined(g));
  }

  lemma {:induction false} JoinedInjective(f: seq<string>, g: seq<string>)
    requires CommaFree(f) && CommaFree(g) && Joined(f) == Joined(g)
    ensures f == g
  {
    if f != [] && g != [] {
      assert Joined(f) == "," + (f[0] + Joined(f[1..]));
      assert Joined(g) == "," + (g[0] + Joined(g[1..]));
      TagSplits(",", f[0] + Joined(f[1..]), g[0] + Joined(g[1..]));
      WordSplits(f[0], f[1..], g[0], g[1..]);
      JoinedInjective(f[1..], g[1..]);
      assert f == [f[0]] + f[1..] && g == [g[0]] + g[1..];
    }
  }

  // A dtype name: no comma, and not something a dimension could be printed as.
  ghost predicate DtypeName(t: string) {
    Free(',', t) && forall x: int :: t != ShowInt(x)
  }

  ghost predicate DtypeNames(ts: seq<string>) {
    forall i :: 0 <= i < |ts| ==> DtypeName(ts[i])
  }

  lemma ShowIntFree(c: char, x: int)
    requires c != '-' && !IsDigit(c)
    ensures Free(c, ShowInt(x))
  {
    ShowIntChars(x);
  }

  lemma FieldsCommaFree(dims: seq<int>, dtypes: seq<string>)
    requires DtypeNames(dtypes)
    ensures CommaFree(Fields(dims, dtypes))
  {
    forall i | 0 <= i < |dims| + |dtypes|
      ensures Free(',', Fields(dims, dtypes)[i])
    {
      if i < |dims| {
        ShowIntFree(',', dims[i]);
      } else {
        assert DtypeName(dtypes[i - |dims|]);
      }
    }
  }

  lemma TailIsNoNumber(dims: seq<int>, dtypes: seq<string>, j: nat, x: int)
    requires DtypeNames(dtypes) && |dims| <= j < |dims| + |dtypes|
    ensures Fields(dims, dtypes)[j] != ShowInt(x)
  {
    assert Fields(dims, dtypes)[j] == dtypes[j - |dims|];
    assert DtypeName(dtypes[j - |dims|]);
  }

  lemma FieldsDimsNoFewer(d1: seq<int>, t1: seq<string>, d2: seq<int>, t2: seq<string>)
    requires DtypeNames(t1) && Fields(d1, t1) == Fields(d2, t2)
    ensures |d1| >= |d2|
  {
    if |d1| < |d2| {
      TailIsNoNumber(d1, t1, |d1|, d2[|d1|]);
    }
  }

  lemma FieldsInjective(d1: seq<int>, t1: seq<string>, d2: seq<int>, t2: seq<string>)
    requires DtypeNames(t1) && DtypeNames(t2) && Fields(d1, t1) == Fields(d2, t2)
    ensures d1 == d2 && t1 == t2
  {
    FieldsDimsNoFewer(d1, t1, d2, t2);
    FieldsDimsNoFewer(d2, t2, d1, t1);
    forall i | 0 <= i < |d1|
      ensures d1[i] == d2[i]
    {
      assert Fields(d1, t1)[i] == ShowInt(d1[i]);
      assert Fields(d2, t2)[i] == ShowInt(d2[i]);
      ShowIntInjective(d1[i], d2[i]);
    }
    assert t1 == Fields(d1, t1)[|d1|..] && t2 == Fields(d2, t2)[|d2|..];
  }

  lemma TokenTailInjective(v1: nat, d1: seq<int>, t1: seq<string>, v2: nat, d2: seq<int>, t2: seq<string>)
    requires DtypeNames(t1) && DtypeNames(t2)
    requires ShowInt(v1) + Joined(Fields(d1, t1)) == ShowInt(v2) + Joined(Fields(d2, t2))
    ensures v1 == v2 && d1 == d2 && t1 == t2
  {
    ShowIntFree(',', v1);
    ShowIntFree(',', v2);
    WordSplits(ShowInt(v1), Fields(d1, t1), ShowInt(v2), Fields(d2, t2));
    ShowIntInjective(v1, v2);
    FieldsCommaFree(d1, t1);
    FieldsCommaFree(d2, t2);
    JoinedInjective(Fields(d1, t1), Fields(d2, t2));
    FieldsInjective(d1, t1, d2, t2);
  }

  lemma ScopedTail(k: string, n: string, tail: string)
    requires n != ""
    ensures ScopedKernelId(k, n) + "@" + tail == "@" + (Field(n) + (":" + (k + ['@'] + tail)))
  {
    ScopedShape(k, n);
    assert "@" + (Field(n) + (":" + k)) + "@" + tail == "@" + (Field(n) + (":" + (k + ['@'] + tail)));
  }

  lemma IdSplitsScoped(k1: string, n1: string, tail1: string, k2: string, n2: string, tail2: string)
    requires Free('@', k1) && Free('@', k2) && n1 != "" && n2 != ""
    requires ScopedKernelId(k1, n1) + "@" + tail1 == ScopedKernelId(k2, n2) + "@" + tail2
    ensures k1 == k2 && n1 == n2 && tail1 == tail2
  {
    ScopedTail(k1, n1, tail1);
    ScopedTail(k2, n2, tail2);
    var x1, x2 := k1 + ['@'] + tail1, k2 + ['@'] + tail2;
    TagSplits("@", Field(n1) + (":" + x1), Field(n2) + (":" + x2));
    FieldSplits(n1, ":" + x1, n2, ":" + x2);
    TagSplits(":", x1, x2);
    SeparatorSplits('@', k1, tail1, k2, tail2);
  }

  lemma IdSplits(k1: string, n1: string, tail1: string, k2: string, n2: string, tail2: string)
    requires KernelName(k1) && KernelName(k2)
    requires ScopedKernelId(k1, n1) + "@" + tail1 == ScopedKernelId(k2, n2) + "@" + tail2
    ensures k1 == k2 && n1 == n2 && tail1 == tail2
  {
    var text := ScopedKernelId(k1, n1) + "@" + tail1;
    assert n1 != "" <==> text[0] == '@';
    assert n2 != "" <==> text[0] == '@';
    if n1 == "" {
      SeparatorSplits('@', k1, tail1, k2, tail2);
    } else {
      IdSplitsScoped(k1, n1, tail1, k2, n2, tail2);
    }
  }

  lemma TokenTail(s: string, v: nat, d: seq<int>, t: seq<string>)
    ensures FlightToken(s, v, d, t) == s + "@" + (ShowInt(v) + Joined(Fields(d, t)))
  {
  }

  /** With storage ids built by ScopedKernelId, equal tokens mean equal requests. Namespaces may
      hold any characters at all: their length is printed before them. */
  lemma FlightTokenInjective(k1: string, n1: string, v1: nat, d1: seq<int>, t1: seq<string>,
                             k2: string, n2: string, v2: nat, d2: seq<int>, t2: seq<string>)
    requires KernelName(k1) && KernelName(k2) && DtypeNames(t1) && DtypeNames(t2)
    requires FlightToken(ScopedKernelId(k1, n1), v1, d1, t1) == FlightToken(ScopedKernelId(k2, n2), v2, d2, t2)
    ensures k1 == k2 && n1 == n2 && v1 == v2 && d1 == d2 && t1 == t2
  {
    TokenTail(ScopedKernelId(k1, n1), v1, d1, t1);
    TokenTail(ScopedKernelId(k2, n2), v2, d2, t2);
    IdSplits(k1, n1, ShowInt(v1) + Joined(Fields(d1, t1)), k2, n2, ShowInt(v2) + Joined(Fields(d2, t2)));
    TokenTailInjective(v1, d1, t1, v2, d2, t2);
  }

  // Request 2 spells out request 1: the '@' and the device of request 1 are the end of one of the dtypes of
  // request 2, and everything before them is part of the storage id of request 1.
  ghost predicate Spells(s1: string, v1: nat, d1: seq<int>, t1: seq<string>,
                         s2: string, v2: nat, d2: seq<int>, t2: seq<string>, i: nat, p: string) {
    && i < |t2| && t2[i] == p + "@" + ShowInt(v1)
    && d1 == [] && t1 == t2[i + 1..]
    && s1 == s2 + "@" + ShowInt(v2) + Joined(Fields(d2, t2)[..|d2| + i]) + "," + p
  }

  lemma {:induction false} JoinedAt(f: seq<string>, n: nat)
    requires n < |f|
    ensures Joined(f) == Joined(f[..n]) + "," + f[n] + Joined(f[n + 1..])
  {
    if n == 0 {
      assert f[..0] == [] && f[1..] == f[0 + 1..];
      assert "" + "," + f[0] == "," + f[0];
    } else {
      JoinedAt(f[1..], n - 1);
      assert f[..n][1..] == f[1..][..n - 1] && f[n + 1..] == f[1..][n..];
      Regroup("," + f[0], Joined(f[1..][..n - 1]), f[n], Joined(f[n + 1..]));
    }
  }

  lemma Regroup(a: string, b: string, c: string, d: string)
    ensures a + (b + "," + c + d) == a + b + "," + c + d
  {
  }

  lemma RegroupToken(a: string, b: string, p: string, w: string, c: string)
    ensures a + (b + "," + (p + "@" + w) + c) == a + b + "," + p + "@" + w + c
  {
  }

  lemma TokenAt(s: string, v: nat, d: seq<int>, t: seq<string>, i: nat)
    requires i < |t|
    ensures FlightToken(s, v, d, t)
         == s + "@" + ShowInt(v) + (Joined(Fields(d, t)[..|d| + i]) + "," + t[i] + Joined(t[i + 1..]))
  {
    var f, n := Fields(d, t), |d| + i;
    JoinedAt(f, n);
    assert f[n] == t[i] && f[n + 1..] == t[i + 1..];
  }

  // A request that spells out another has its token.
  lemma SpellsCollides(s1: string, v1: nat, d1: seq<int>, t1: seq<string>,
                       s2: string, v2: nat, d2: seq<int>, t2: seq<string>, i: nat, p: string)
    requires Spells(s1, v1, d1, t1, s2, v2, d2, t2, i, p)
    ensures FlightToken(s1, v1, d1, t1) == FlightToken(s2, v2, d2, t2)
  {
    TokenAt(s2, v2, d2, t2, i);
    assert Fields(d1, t1) == t1;
    RegroupToken(s2 + "@" + ShowInt(v2), Joined(Fields(d2, t2)[..|d2| + i]), p, ShowInt(v1), Joined(t1));
  }

  // The first comma of a text that has one.
  lemma {:induction false} FirstComma(x: string) returns (y: string, z: string)
    requires !Free(',', x)
    ensures x == y + [','] + z && Free(',', y)
  {
    if x[0] == ',' {
      y, z := "", x[1..];
    } else {
      y, z := FirstComma(x[1..]);
      y := [x[0]] + y;
      assert x == [x[0]] + x[1..];
    }
  }

  // Where an '@' that is followed by a word and fields sits in a text of fields: in field j, after p. Field
  // 0 is the word that the text starts with.
  lemma {:induction false} AtInFields(g: seq<string>, x: string, w: string, f: seq<string>) returns (j: nat, p: string)
    requires g != [] && CommaFree(g) && Free(',', w) && CommaFree(f)
    requires g[0] + Joined(g[1..]) == x + ['@'] + w + Joined(f)
    ensures j < |g| && g[j] == p + "@" + w && f == g[j + 1..]
    ensures x == if j == 0 then p else g[0] + Joined(g[1..j]) + "," + p
    decreases |g|
  {
    if Free(',', x) {
      AtInFirst(g, x, w, f);
      j, p := 0, x;
    } else {
      var y, z := FirstComma(x);
      NextField(g, y, z, w, f);
      assert g[1..][1..] == g[2..];
      j, p := AtInFields(g[1..], z, w, f);
      PrefixNext(g, z, p, j);
      assert g[1..][j + 1..] == g[j + 2..];
      j := j + 1;
    }
  }

  lemma AtInFirst(g: seq<string>, x: string, w: string, f: seq<string>)
    requires g != [] && CommaFree(g) && Free(',', w) && CommaFree(f) && Free(',', x)
    requires g[0] + Joined(g[1..]) == x + ['@'] + w + Joined(f)
    ensures g[0] == x + "@" + w && f == g[1..]
  {
    WordSplits(g[0], g[1..], x + ['@'] + w, f);
    JoinedInjective(g[1..], f);
  }

  lemma HasComma(y: string, rest: string)
    ensures !Free(',', y + [','] + rest)
  {
    assert (y + [','] + rest)[|y|] == ',';
  }

  lemma MoreFields(g: seq<string>)
    requires g != [] && CommaFree(g) && !Free(',', g[0] + Joined(g[1..]))
    ensures |g| > 1
  {
    var rest := g[1..];
    assert rest == [] ==> Joined(rest) == "";
    assert g[0] + "" == g[0];
  }

  lemma NextField(g: seq<string>, y: string, z: string, w: string, f: seq<string>)
    requires g != [] && CommaFree(g) && Free(',', y)
    requires g[0] + Joined(g[1..]) == y + [','] + z + ['@'] + w + Joined(f)
    ensures |g| > 1 && y == g[0] && g[1] + Joined(g[2..]) == z + ['@'] + w + Joined(f)
  {
    var rest := z + ['@'] + w + Joined(f);
    assert y + [','] + rest == y + [','] + z + ['@'] + w + Joined(f);
    HasComma(y, rest);
    MoreFields(g);
    assert g[1..][1..] == g[2..];
    assert g[0] + Joined(g[1..]) == g[0] + [','] + (g[1] + Joined(g[2..]));
    SeparatorSplits(',', g[0], g[1] + Joined(g[2..]), y, rest);
  }

  // One more field in front.
  lemma PrefixNext(g: seq<string>, z: string, p: string, j: nat)
    requires j + 1 < |g|
    requires z == if j == 0 then p else g[1..][0] + Joined(g[1..][1..j]) + "," + p
    ensures g[0] + [','] + z == g[0] + Joined(g[1..j + 1]) + "," + p
  {
    var h := g[1..j + 1];
    if j == 0 {
      assert h == [];
      assert g[0] + "" + "," + p == g[0] + [','] + p;
    } else {
      assert h[0] == g[1] && h[1..] == g[1..][1..j];
      Regroup(g[0], "", g[1] + Joined(h[1..]), "," + p);
      assert g[0] + ("," + g[1] + Joined(h[1..])) + "," + p == g[0] + [','] + (g[1] + Joined(h[1..]) + "," + p);
    }
  }

  lemma AllCommaFree(v: nat, dims: seq<int>, dtypes: seq<string>)
    requires DtypeNames(dtypes)
    ensures Free(',', ShowInt(v)) && CommaFree(Fields(dims, dtypes)) && CommaFree([ShowInt(v)] + Fields(dims, dtypes))
    ensures ([ShowInt(v)] + Fields(dims, dtypes))[1..] == Fields(dims, dtypes)
  {
    ShowIntFree(',', v);
    FieldsCommaFree(dims, dtypes);
  }

  // The text that the longer storage id has swallowed ends within a dtype.
  lemma SwallowedField(x: string, v1: nat, d1: seq<int>, t1: seq<string>, v2: nat, d2: seq<int>, t2: seq<string>)
    returns (i: nat, p: string)
    requires DtypeNames(t1) && DtypeNames(t2)
    requires ShowInt(v2) + Joined(Fields(d2, t2)) == x + ['@'] + ShowInt(v1) + Joined(Fields(d1, t1))
    ensures i < |t2| && t2[i] == p + "@" + ShowInt(v1) && Fields(d1, t1) == t2[i + 1..]
    ensures x == ShowInt(v2) + Joined(Fields(d2, t2)[..|d2| + i]) + "," + p
  {
    var g := [ShowInt(v2)] + Fields(d2, t2);
    AllCommaFree(v2, d2, t2);
    AllCommaFree(v1, d1, t1);
    var j;
    j, p := AtInFields(g, x, ShowInt(v1), Fields(d1, t1));
    i := DtypeOfField(v2, d2, t2, j, p, ShowInt(v1));
  }

  // The longer storage id swallows a separator of the other request.
  lemma LongerIdSpells(s1: string, v1: nat, d1: seq<int>, t1: seq<string>,
                       s2: string, v2: nat, d2: seq<int>, t2: seq<string>) returns (i: nat, p: string)
    requires DtypeNames(t1) && DtypeNames(t2) && |s1| > |s2|
    requires FlightToken(s1, v1, d1, t1) == FlightToken(s2, v2, d2, t2)
    ensures Spells(s1, v1, d1, t1, s2, v2, d2, t2, i, p)
  {
    TokenTail(s1, v1, d1, t1);
    TokenTail(s2, v2, d2, t2);
    var joined1, joined2 := Joined(Fields(d1, t1)), Joined(Fields(d2, t2));
    var x := Swallowed(s1, ShowInt(v1) + joined1, s2, ShowInt(v2) + joined2);
    assert x + ['@'] + (ShowInt(v1) + joined1) == x + ['@'] + ShowInt(v1) + joined1;
    i, p := SwallowedField(x, v1, d1, t1, v2, d2, t2);
    TailHasNoDims(d1, t1, t2[i + 1..]);
    RegroupId(s2, ShowInt(v2), Joined(Fields(d2, t2)[..|d2| + i]), p);
  }

  lemma RegroupId(s: string, v: string, joined: string, p: string)
    ensures s + "@" + (v + joined + "," + p) == s + "@" + v + joined + "," + p
  {
  }

  // Cutting the common text s2 + "@" off the longer id.
  lemma Swallowed(s1: string, tail1: string, s2: string, tail2: string) returns (x: string)
    requires |s1| > |s2| && s1 + "@" + tail1 == s2 + "@" + tail2
    ensures s1 == s2 + "@" + x && x + ['@'] + tail1 == tail2
  {
    var text := s1 + "@" + tail1;
    x := s1[|s2| + 1..];
    assert text[..|s2|] == s2 && text[|s2|] == '@' && text[|s2| + 1..] == tail2;
    assert s1[..|s2|] == s2 && s1[|s2|] == '@';
    assert text[|s2| + 1..] == x + ['@'] + tail1;
  }

  // A field with an '@' in it is a dtype.
  lemma DtypeOfField(v: nat, dims: seq<int>, dtypes: seq<string>, j: nat, p: string, w: string) returns (i: nat)
    requires var g := [ShowInt(v)] + Fields(dims, dtypes); j < |g| && g[j] == p + "@" + w
    ensures i < |dtypes| && j == 1 + |dims| + i && dtypes[i] == p + "@" + w
    ensures var g := [ShowInt(v)] + Fields(dims, dtypes);
            g[1..j] == Fields(dims, dtypes)[..|dims| + i] && g[j + 1..] == dtypes[i + 1..]
  {
    var field := p + "@" + w;
    assert field[|p|] == '@';
    if j == 0 {
      ShowIntFree('@', v);
      assert false;
    } else if j <= |dims| {
      ShowIntFree('@', dims[j - 1]);
      assert false;
    }
    i := j - 1 - |dims|;
  }

  lemma TailHasNoDims(dims: seq<int>, dtypes: seq<string>, rest: seq<string>)
    requires DtypeNames(rest) && Fields(dims, dtypes) == rest
    ensures dims == [] && dtypes == rest
  {
    assert Fields([], rest) == rest;
    if dims != [] {
      TailIsNoNumber([], rest, 0, dims[0]);
      assert false;
    }
    assert Fields([], dtypes) == dtypes;
  }

  /** Exactly when two requests with arbitrary storage ids have one token: when they are the same request,
      or one of them spells out the other. */
  lemma FlightTokenCollision(s1: string, v1: nat, d1: seq<int>, t1: seq<string>,
                             s2: string, v2: nat, d2: seq<int>, t2: seq<string>)
    requires DtypeNames(t1) && DtypeNames(t2)
    ensures FlightToken(s1, v1, d1, t1) == FlightToken(s2, v2, d2, t2) <==>
              || (s1 == s2 && v1 == v2 && d1 == d2 && t1 == t2)
              || (exists i: nat, p :: Spells(s1, v1, d1, t1, s2, v2, d2, t2, i, p))
              || (exists i: nat, p :: Spells(s2, v2, d2, t2, s1, v1, d1, t1, i, p))
  {
    if FlightToken(s1, v1, d1, t1) == FlightToken(s2, v2, d2, t2) {
      if |s1| > |s2| {
        var i, p := LongerIdSpells(s1, v1, d1, t1, s2, v2, d2, t2);
      } else if |s2| > |s1| {
        var i, p := LongerIdSpells(s2, v2, d2, t2, s1, v1, d1, t1);
      } else {
        SameLengthIds(s1, v1, d1, t1, s2, v2, d2, t2);
      }
    } else if i: nat, p :| Spells(s1, v1, d1, t1, s2, v2, d2, t2, i, p) {
      SpellsCollides(s1, v1, d1, t1, s2, v2, d2, t2, i, p);
    } else if i: nat, p :| Spells(s2, v2, d2, t2, s1, v1, d1, t1, i, p) {
      SpellsCollides(s2, v2, d2, t2, s1, v1, d1, t1, i, p);
    }
  }

  lemma SameLengthIds(s1: string, v1: nat, d1: seq<int>, t1: seq<string>,
                      s2: string, v2: nat, d2: seq<int>, t2: seq<string>)
    requires DtypeNames(t1) && DtypeNames(t2) && |s1| == |s2|
    requires FlightToken(s1, v1, d1, t1) == FlightToken(s2, v2, d2, t2)
    ensures s1 == s2 && v1 == v2 && d1 == d2 && t1 == t2
  {
    TokenTail(s1, v1, d1, t1);
    TokenTail(s2, v2, d2, t2);
    var tail1, tail2 := ShowInt(v1) + Joined(Fields(d1, t1)), ShowInt(v2) + Joined(Fields(d2, t2));
    var text := s1 + "@" + tail1;
    assert text[..|s1|] == s1 && text[|s1| + 1..] == tail1;
    assert text[..|s2|] == s2 && text[|s2| + 1..] == tail2;
    TokenTailInjective(v1, d1, t1, v2, d2, t2);
  }

  // The dtype ends in '@' and a decimal number, as a storage id and a device would.
  ghost predicate EndsLikeDevice(t: string) {
    exists p, v: nat :: t == p + "@" + ShowInt(v)
  }

  /** With arbitrary storage ids, a list of dtypes is safe exactly if none of them ends in '@' and a number:
      otherwise, and only then, some request with fewer dtypes has the same token. */
  lemma SafeDtypes(s2: string, v2: nat, d2: seq<int>, t2: seq<string>)
    requires DtypeNames(t2)
    ensures (forall i :: 0 <= i < |t2| ==> !EndsLikeDevice(t2[i])) <==>
              forall s1, v1: nat, d1, t1 :: DtypeNames(t1) && |t1| < |t2| ==>
                FlightToken(s1, v1, d1, t1) != FlightToken(s2, v2, d2, t2)
  {
    if i: nat :| i < |t2| && EndsLikeDevice(t2[i]) {
      var s1, v1, t1 := UnsafeDtype(s2, v2, d2, t2, i);
    } else {
      forall s1, v1: nat, d1, t1 | DtypeNames(t1) && |t1| < |t2|
        ensures FlightToken(s1, v1, d1, t1) != FlightToken(s2, v2, d2, t2)
      {
        ShorterIsApart(s1, v1, d1, t1, s2, v2, d2, t2);
      }
    }
  }

  lemma UnsafeDtype(s2: string, v2: nat, d2: seq<int>, t2: seq<string>, i: nat)
    returns (s1: string, v1: nat, t1: seq<string>)
    requires DtypeNames(t2) && i < |t2| && EndsLikeDevice(t2[i])
    ensures DtypeNames(t1) && |t1| < |t2| && FlightToken(s1, v1, [], t1) == FlightToken(s2, v2, d2, t2)
  {
    var p, v: nat :| t2[i] == p + "@" + ShowInt(v);
    v1, t1 := v, t2[i + 1..];
    s1 := s2 + "@" + ShowInt(v2) + Joined(Fields(d2, t2)[..|d2| + i]) + "," + p;
    SpellsCollides(s1, v1, [], t1, s2, v2, d2, t2, i, p);
  }

  lemma ShorterIsApart(s1: string, v1: nat, d1: seq<int>, t1: seq<string>,
                       s2: string, v2: nat, d2: seq<int>, t2: seq<string>)
    requires DtypeNames(t1) && DtypeNames(t2) && |t1| < |t2|
    requires forall i :: 0 <= i < |t2| ==> !EndsLikeDevice(t2[i])
    ensures FlightToken(s1, v1, d1, t1) != FlightToken(s2, v2, d2, t2)
  {
    FlightTokenCollision(s1, v1, d1, t1, s2, v2, d2, t2);
    NoSpelling(s1, v1, d1, t1, s2, v2, d2, t2);
  }

  lemma NoSpelling(s1: string, v1: nat, d1: seq<int>, t1: seq<string>,
                   s2: string, v2: nat, d2: seq<int>, t2: seq<string>)
    requires forall i :: 0 <= i < |t2| ==> !EndsLikeDevice(t2[i])
    ensures !exists i: nat, p :: Spells(s1, v1, d1, t1, s2, v2, d2, t2, i, p)
  {
    forall i: nat, p
      ensures !Spells(s1, v1, d1, t1, s2, v2, d2, t2, i, p)
    {
      assert i < |t2| && t2[i] == p + "@" + ShowInt(v1) ==> EndsLikeDevice(t2[i]);
    }
  }

  /** So for dtypes that do not end like a device, tokens are injective whatever the storage ids are. */
  lemma FlightTokenInjectiveAnyId(s1: string, v1: nat, d1: seq<int>, t1: seq<string>,
                                  s2: string, v2: nat, d2: seq<int>, t2: seq<string>)
    requires DtypeNames(t1) && DtypeNames(t2)
    requires forall i :: 0 <= i < |t1| ==> !EndsLikeDevice(t1[i])
    requires forall i :: 0 <= i < |t2| ==> !EndsLikeDevice(t2[i])
    requires FlightToken(s1, v1, d1, t1) == FlightToken(s2, v2, d2, t2)
    ensures s1 == s2 && v1 == v2 && d1 == d2 && t1 == t2
  {
    FlightTokenCollision(s1, v1, d1, t1, s2, v2, d2, t2);
    NoSpelling(s1, v1, d1, t1, s2, v2, d2, t2);
    NoSpelling(s2, v2, d2, t2, s1, v1, d1, t1);
  }

  /** Here two different devices share one token. */
  lemma FlightTokenExample()
    ensures FlightToken("a@0,5", 3, [], []) == FlightToken("a", 0, [], ["5@3"])
    ensures DtypeName("5@3")
  {
    assert ShowInt(3) == "3" && ShowInt(0) == "0";
    assert Fields([], []) == [] && Fields([], ["5@3"]) == ["5@3"];
    assert Joined(["5@3"]) == ",5@3";
    forall x: int
      ensures "5@3" != ShowInt(x)
    {
      ShowIntFree('@', x);
      assert "5@3"[1] == '@';
    }
  }

  /** And without the conditions on dtype names, dimensions and dtypes run into each other. */
  lemma FlightTokenLooseDtypes()
    ensures FlightToken("k", 0, [5], []) == FlightToken("k", 0, [], ["5"])
    ensures FlightToken("k", 0, [], ["a,b"]) == FlightToken("k", 0, [], ["a", "b"])
  {
    assert ShowInt(5) == "5";
    assert Fields([5], []) == ["5"] && Fields([], ["5"]) == ["5"];
    assert Fields([], ["a,b"]) == ["a,b"] && Fields([], ["a", "b"]) == ["a", "b"];
    assert ["a", "b"][1..] == ["b"] && ["b"][1..] == [] && ["a,b"][1..] == [];
    assert Joined(["a,b"]) == ",a,b" && Joined(["b"]) == ",b" && Joined(["a", "b"]) == ",a,b";
  }
}
