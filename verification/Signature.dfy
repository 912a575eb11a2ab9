/** The textual kernel signature: how it is joined (include/triton_jit/jit_utils.h, lines 356-366) and
    how its two readers take it apart, one in C++ (include/triton_jit/backends/npu_arg_buffer.h, lines
    146-190) and one in Python (scripts/standalone_compile.py, lines 192-223). */
module Signature {

  datatype Option<+T> = None | Some(value: T)

  // Which characters a reader trims from the ends of a token.
  type Spaces = char -> bool

  // Both readers trim blanks and tabs; Python's str.strip() trims more.
  predicate CxxSpace(c: char) {
    c == ' ' || c == '\t'
  }

  function TrimLeft(space: Spaces, s: string): (t: string)
    ensures |t| <= |s|
  {
    if s != [] && space(s[0]) then TrimLeft(space, s[1..]) else s
  }

  function TrimRight(space: Spaces, s: string): (t: string)
    ensures |t| <= |s|
  {
    if s != [] && space(s[|s| - 1]) then TrimRight(space, s[..|s| - 1]) else s
  }

  function Trim(space: Spaces, s: string): string {
    TrimRight(space, TrimLeft(space, s))
  }

  // ---- the definition of splitting

  // The raw pieces between top-level commas: `current` has been read of the piece in progress, `depth`
  // parentheses are open. None when parentheses do not match.
  function Pieces(s: string, depth: nat, current: string): (r: Option<seq<string>>)
    ensures r.Some? ==> r.value != []
  {
    if s == [] then
      if depth == 0 then Some([current]) else None
    else if s[0] == '(' then Pieces(s[1..], depth + 1, current + [s[0]])
    else if s[0] == ')' then
      if depth == 0 then None else Pieces(s[1..], depth - 1, current + [s[0]])
    else if s[0] == ',' && depth == 0 then
      var rest := Pieces(s[1..], 0, []);
      if rest.None? then None else Some([current] + rest.value)
    else Pieces(s[1..], depth, current + [s[0]])
  }

  function TrimAll(space: Spaces, pieces: seq<string>): (r: seq<string>)
    ensures |r| == |pieces|
  {
    seq(|pieces|, i requires 0 <= i < |pieces| => Trim(space, pieces[i]))
  }

  // Trimmed pieces after `done` finished tokens. No token may be empty, except that a blank
  // signature has no tokens at all.
  function Finish(space: Spaces, done: seq<string>, pieces: Option<seq<string>>): Option<seq<string>>
    requires pieces.Some? ==> pieces.value != []
  {
    if pieces.None? then None
    else
      var tokens := TrimAll(space, pieces.value);
      if [] !in tokens then Some(done + tokens)
      else if |tokens| == 1 && done == [] then Some([])
      else None
  }

  function Split(space: Spaces, s: string): Option<seq<string>> {
    Finish(space, [], Pieces(s, 0, []))
  }

  // ---- joining

  function JoinSig(tokens: seq<string>): string {
    if tokens == [] then ""
    else if |tokens| == 1 then tokens[0]
    else JoinSig(tokens[..|tokens| - 1]) + "," + tokens[|tokens| - 1]
  }

  /** join_sig: the loop that writes into a string stream. */
  method JoinSigStream(tokens: seq<string>) returns (text: string)
    ensures text == JoinSig(tokens)
  {
    text := "";
    for i := 0 to |tokens|
      invariant text == JoinSig(tokens[..i])
    {
      assert tokens[..i + 1][..i] == tokens[..i];
      if i == 0 {
        text := text + tokens[i];
      } else {
        text := text + "," + tokens[i];
      }
    }
    assert tokens[..|tokens|] == tokens;
  }

  // ---- the two readers

  lemma FinishFirst(space: Spaces, done: seq<string>, current: string, rest: Option<seq<string>>)
    requires rest.Some? ==> rest.value != []
    ensures Finish(space, done, if rest.None? then None else Some([current] + rest.value))
         == if Trim(space, current) == [] then None else Finish(space, done + [Trim(space, current)], rest)
  {
    if rest.Some? {
      var tokens := TrimAll(space, [current] + rest.value);
      var more := TrimAll(space, rest.value);
      assert tokens == [Trim(space, current)] + more;
      assert done + tokens == done + [Trim(space, current)] + more;
      assert [] in tokens <==> Trim(space, current) == [] || [] in more;
    }
  }

  lemma FinishLast(space: Spaces, done: seq<string>, current: string)
    ensures Finish(space, done, Some([current]))
         == if Trim(space, current) != [] then Some(done + [Trim(space, current)])
            else if done != [] then None
            else Some([])
  {
    assert TrimAll(space, [current]) == [Trim(space, current)];
  }

  /** The Python reader: one character after the other into `current`. */
  method BracketAwareSplit(space: Spaces, sig: string) returns (r: Option<seq<string>>)
    ensures r == Split(space, sig)
  {
    var parts: seq<string> := [];
    assert sig[0..] == sig;
    var current := "";
    var depth := 0;
    for i := 0 to |sig|
      invariant 0 <= depth
      invariant Split(space, sig) == Finish(space, parts, Pieces(sig[i..], depth, current))
    {
      var ch := sig[i];
      assert sig[i..][0] == ch && sig[i..][1..] == sig[i + 1..];
      if ch == '(' {
        depth := depth + 1;
      } else if ch == ')' {
        if depth == 0 {
          return None;
        }
        depth := depth - 1;
      }
      if ch == ',' && depth == 0 {
        var part := Trim(space, current);
        FinishFirst(space, parts, current, Pieces(sig[i + 1..], 0, []));
        if part == [] {
          return None;
        }
        parts := parts + [part];
        current := [];
      } else {
        current := current + [ch];
      }
    }
    if depth != 0 {
      return None;
    }
    FinishLast(space, parts, current);
    var final := Trim(space, current);
    if final != [] {
      parts := parts + [final];
    } else if parts != [] {
      return None;
    }
    return Some(parts);
  }

  /** The C++ reader: indices into the text, and the trimmed slice between two commas. */
  method SplitSignatureTokens(signature: string) returns (r: Option<seq<string>>)
    ensures r == Split(CxxSpace, signature)
  {
    var tokens: seq<string> := [];
    assert signature[0..] == signature;
    var tokenStart := 0;
    var depth := 0;
    for i := 0 to |signature|
      invariant 0 <= depth && 0 <= tokenStart <= i
      invariant Split(CxxSpace, signature)
             == Finish(CxxSpace, tokens, Pieces(signature[i..], depth, signature[tokenStart..i]))
    {
      var ch := signature[i];
      assert signature[i..][0] == ch && signature[i..][1..] == signature[i + 1..];
      assert signature[tokenStart..i] + [ch] == signature[tokenStart..i + 1];
      if ch == '(' {
        depth := depth + 1;
      } else if ch == ')' {
        if depth == 0 {
          return None;
        }
        depth := depth - 1;
      } else if ch == ',' && depth == 0 {
        var token := Trim(CxxSpace, signature[tokenStart..i]);
        FinishFirst(CxxSpace, tokens, signature[tokenStart..i], Pieces(signature[i + 1..], 0, []));
        if token == [] {
          return None;
        }
        tokens := tokens + [token];
        tokenStart := i + 1;
        assert signature[tokenStart..i + 1] == [];
      }
    }
    if depth != 0 {
      return None;
    }
    assert signature[tokenStart..] == signature[tokenStart..|signature|];
    FinishLast(CxxSpace, tokens, signature[tokenStart..]);
    var final := Trim(CxxSpace, signature[tokenStart..]);
    if final != [] {
      tokens := tokens + [final];
    } else if tokens != [] {
      return None;
    }
    return Some(tokens);
  }

  // ---- the readers agree

  ghost predicate SameSpaces(one: Spaces, two: Spaces, s: string) {
    forall c :: c in s ==> one(c) == two(c)
  }

  lemma {:induction false} TrimAgrees(one: Spaces, two: Spaces, s: string)
    requires SameSpaces(one, two, s)
    ensures Trim(one, s) == Trim(two, s)
  {
    TrimLeftAgrees(one, two, s);
    TrimRightAgrees(one, two, TrimLeft(one, s));
  }

  lemma {:induction false} TrimLeftAgrees(one: Spaces, two: Spaces, s: string)
    requires SameSpaces(one, two, s)
    ensures TrimLeft(one, s) == TrimLeft(two, s) && SameSpaces(one, two, TrimLeft(one, s))
  {
    if s != [] && one(s[0]) {
      TrimLeftAgrees(one, two, s[1..]);
    }
  }

  lemma {:induction false} TrimRightAgrees(one: Spaces, two: Spaces, s: string)
    requires SameSpaces(one, two, s)
    ensures TrimRight(one, s) == TrimRight(two, s)
  {
    if s != [] && one(s[|s| - 1]) {
      TrimRightAgrees(one, two, s[..|s| - 1]);
    }
  }

  // Splitting invents no characters.
  lemma {:induction false} PiecesKeepCharacters(s: string, depth: nat, current: string, all: string)
    requires (forall c :: c in s ==> c in all) && (forall c :: c in current ==> c in all)
    ensures var r := Pieces(s, depth, current);
            r.Some? ==> forall p :: p in r.value ==> forall c :: c in p ==> c in all
  {
    if s != [] {
      if s[0] == '(' {
        PiecesKeepCharacters(s[1..], depth + 1, current + [s[0]], all);
      } else if s[0] == ')' {
        if depth > 0 {
          PiecesKeepCharacters(s[1..], depth - 1, current + [s[0]], all);
        }
      } else if s[0] == ',' && depth == 0 {
        PiecesKeepCharacters(s[1..], 0, [], all);
      } else {
        PiecesKeepCharacters(s[1..], depth, current + [s[0]], all);
      }
    }
  }

  /** Both readers accept the same signatures and read the same tokens, as long as they agree on the
      blanks that occur: Python's other white space is the only difference between them. */
  lemma ReadersAgree(python: Spaces, s: string)
    requires SameSpaces(python, CxxSpace, s)
    ensures Split(python, s) == Split(CxxSpace, s)
  {
    PiecesKeepCharacters(s, 0, [], s);
    var r := Pieces(s, 0, []);
    if r.Some? {
      forall i | 0 <= i < |r.value|
        ensures TrimAll(python, r.value)[i] == TrimAll(CxxSpace, r.value)[i]
      {
        assert r.value[i] in r.value;
        TrimAgrees(python, CxxSpace, r.value[i]);
      }
      assert TrimAll(python, r.value) == TrimAll(CxxSpace, r.value);
    }
  }

  // Nothing that this reader trims is at the ends of the token.
  predicate Tight(space: Spaces, t: string) {
    t != [] ==> !space(t[0]) && !space(t[|t| - 1])
  }

  lemma TightIsTrimmed(space: Spaces, t: string)
    ensures Trim(space, t) == t <==> Tight(space, t)
  {
    TrimLeftDone(space, t);
    TrimRightDone(space, TrimLeft(space, t));
  }

  lemma {:induction false} TrimLeftAppends(space: Spaces, s: string, c: char)
    requires space(c)
    ensures TrimLeft(space, s + [c]) == if TrimLeft(space, s) == [] then [] else TrimLeft(space, s) + [c]
  {
    if s == [] {
      assert s + [c] == [c] && [c][1..] == [];
    } else {
      assert (s + [c])[1..] == s[1..] + [c];
      if space(s[0]) {
        TrimLeftAppends(space, s[1..], c);
      }
    }
  }

  lemma TrimDropsLast(space: Spaces, s: string)
    requires s != [] && space(s[|s| - 1])
    ensures Trim(space, s) == Trim(space, s[..|s| - 1])
  {
    var t, c := s[..|s| - 1], s[|s| - 1];
    assert s == t + [c];
    TrimLeftAppends(space, t, c);
    if TrimLeft(space, t) != [] {
      assert (TrimLeft(space, t) + [c])[..|TrimLeft(space, t)|] == TrimLeft(space, t);
    }
  }

  // Trimming less first makes no difference.
  lemma {:induction false} TrimRightFirst(more: Spaces, less: Spaces, s: string)
    requires forall c :: less(c) ==> more(c)
    ensures Trim(more, TrimRight(less, s)) == Trim(more, s)
  {
    if s != [] && less(s[|s| - 1]) {
      TrimRightFirst(more, less, s[..|s| - 1]);
      TrimDropsLast(more, s);
    }
  }

  lemma {:induction false} TrimLeftFirst(more: Spaces, less: Spaces, s: string)
    requires forall c :: less(c) ==> more(c)
    ensures TrimLeft(more, TrimLeft(less, s)) == TrimLeft(more, s)
  {
    if s != [] && less(s[0]) {
      TrimLeftFirst(more, less, s[1..]);
    }
  }

  lemma TrimFirst(more: Spaces, less: Spaces, s: string)
    requires forall c :: less(c) ==> more(c)
    ensures Trim(more, Trim(less, s)) == Trim(more, s)
  {
    TrimRightFirst(more, less, TrimLeft(less, s));
    TrimLeftFirst(more, less, s);
  }

  // What the reader that trims more makes of the other's tokens.
  lemma TrimAllFirst(more: Spaces, less: Spaces, pieces: seq<string>)
    requires forall c :: less(c) ==> more(c)
    ensures TrimAll(more, pieces) == TrimAll(more, TrimAll(less, pieces))
  {
    forall i | 0 <= i < |pieces|
      ensures TrimAll(more, pieces)[i] == TrimAll(more, TrimAll(less, pieces))[i]
    {
      TrimFirst(more, less, pieces[i]);
    }
  }

  lemma TrimAllKeeps(space: Spaces, tokens: seq<string>)
    ensures TrimAll(space, tokens) == tokens <==> forall i :: 0 <= i < |tokens| ==> Tight(space, tokens[i])
  {
    forall i | 0 <= i < |tokens|
      ensures TrimAll(space, tokens)[i] == tokens[i] <==> Tight(space, tokens[i])
    {
      TightIsTrimmed(space, tokens[i]);
    }
  }

  lemma TrimAllEmpties(space: Spaces, tokens: seq<string>)
    requires [] in tokens
    ensures [] in TrimAll(space, tokens)
  {
    var i :| 0 <= i < |tokens| && tokens[i] == [];
    assert TrimAll(space, tokens)[i] == [];
  }

  predicate AllTight(space: Spaces, tokens: seq<string>) {
    forall i :: 0 <= i < |tokens| ==> Tight(space, tokens[i])
  }

  // Two ways of trimming the same pieces.
  lemma FinishAgrees(one: Spaces, two: Spaces, pieces: seq<string>)
    requires pieces != [] && ([] in TrimAll(one, pieces) ==> [] in TrimAll(two, pieces))
    ensures Finish(one, [], Some(pieces)) == Finish(two, [], Some(pieces)) <==>
              [] in TrimAll(one, pieces) || TrimAll(one, pieces) == TrimAll(two, pieces)
  {
    var a, b := TrimAll(one, pieces), TrimAll(two, pieces);
    assert [] + a == a && [] + b == b;
  }

  /** Exactly when the readers agree, on any text, for a Python that trims at least blanks and tabs: when
      no token of the C++ reader begins or ends with anything Python trims. */
  lemma ReadersAgreeIff(python: Spaces, s: string)
    requires forall c :: CxxSpace(c) ==> python(c)
    ensures Split(python, s) == Split(CxxSpace, s) <==>
              (Split(CxxSpace, s).Some? ==> AllTight(python, Split(CxxSpace, s).value))
  {
    var pieces := Pieces(s, 0, []);
    if pieces.Some? {
      var tokens := TrimAll(CxxSpace, pieces.value);
      TrimAllFirst(python, CxxSpace, pieces.value);
      TrimAllKeeps(python, tokens);
      if [] in tokens {
        TrimAllEmpties(python, tokens);
      }
      FinishAgrees(CxxSpace, python, pieces.value);
      assert [] + tokens == tokens;
    }
  }

  /** The C++ reader trims blanks and tabs, and nothing else. */
  lemma CxxTrims(c: char)
    ensures Trim(CxxSpace, [c]) == (if c in {' ', '\t'} then [] else [c])
  {
    assert [c][1..] == [];
  }

  /** A lone line feed, for one, is no token to one reader and one to the other. */
  lemma ReadersDiffer(python: Spaces)
    requires python('\n')
    ensures Split(python, "\n") == Some([])
    ensures Split(CxxSpace, "\n") == Some(["\n"])
  {
    assert Pieces("\n", 0, []) == Some(["\n"]) by {
      assert [] + ['\n'] == "\n";
    }
    var s := "\n";
    assert !CxxSpace(s[0]);
    var none: seq<string> := [];
    assert Trim(CxxSpace, s) == s && none + [s] == ["\n"];
    FinishLast(python, [], "\n");
    FinishLast(CxxSpace, [], "\n");
  }

  // ---- round trips

  // How many parentheses are open after t; None once one closes too early or a comma is at the top.
  function Level(t: string): Option<nat> {
    if t == [] then Some(0)
    else
      var before := Level(t[..|t| - 1]);
      var c := t[|t| - 1];
      if before.None? then None
      else if c == '(' then Some(before.value + 1)
      else if c == ')' then if before.value == 0 then None else Some(before.value - 1)
      else if c == ',' && before.value == 0 then None
      else before
  }

  predicate WellFormed(space: Spaces, t: string) {
    t != [] && Trim(space, t) == t && Level(t) == Some(0)
  }

  predicate AllWellFormed(space: Spaces, tokens: seq<string>) {
    forall i :: 0 <= i < |tokens| ==> WellFormed(space, tokens[i])
  }

  lemma {:induction false} LevelPrefix(t: string, k: nat)
    requires k <= |t| && Level(t).Some?
    ensures Level(t[..k]).Some?
    decreases |t| - k
  {
    if k < |t| {
      LevelPrefix(t, k + 1);
      assert t[..k + 1][..k] == t[..k];
    } else {
      assert t[..k] == t;
    }
  }

  // Reading k characters of a token whose level is known leaves the rest to read.
  lemma {:induction false} PiecesAfter(t: string, rest: string, k: nat)
    requires k <= |t| && Level(t).Some?
    ensures Level(t[..k]).Some?
    ensures Pieces(t + rest, 0, []) == Pieces(t[k..] + rest, Level(t[..k]).value, t[..k])
  {
    LevelPrefix(t, k);
    if k == 0 {
      assert t[0..] == t;
    } else {
      PiecesAfter(t, rest, k - 1);
      LevelPrefix(t, k - 1);
      assert t[..k][..k - 1] == t[..k - 1];
      var s := t[k - 1..] + rest;
      assert s[0] == t[k - 1] && s[1..] == t[k..] + rest;
      assert t[..k - 1] + [t[k - 1]] == t[..k];
    }
  }

  lemma PiecesOfToken(t: string, rest: string)
    requires Level(t) == Some(0)
    ensures Pieces(t + rest, 0, []) == Pieces(rest, 0, t)
  {
    PiecesAfter(t, rest, |t|);
    assert t[|t|..] + rest == rest && t[..|t|] == t;
  }

  lemma {:induction false} JoinFirst(t: string, tokens: seq<string>)
    requires tokens != []
    ensures JoinSig([t] + tokens) == t + "," + JoinSig(tokens)
  {
    var all := [t] + tokens;
    if |tokens| == 1 {
      assert all[..1] == [t];
    } else {
      JoinFirst(t, tokens[..|tokens| - 1]);
      assert all[..|all| - 1] == [t] + tokens[..|tokens| - 1];
    }
  }

  lemma {:induction false} PiecesOfJoin(tokens: seq<string>)
    requires tokens != [] && forall i :: 0 <= i < |tokens| ==> Level(tokens[i]) == Some(0)
    ensures Pieces(JoinSig(tokens), 0, []) == Some(tokens)
  {
    var t, more := tokens[0], tokens[1..];
    if more == [] {
      assert tokens == [t];
      PiecesOfToken(t, "");
      assert t + "" == t && Pieces("", 0, t) == Some([t]);
    } else {
      PiecesOfJoin(more);
      assert tokens == [t] + more;
      JoinFirst(t, more);
      FirstPiece(t, JoinSig(more));
    }
  }

  lemma FirstPiece(t: string, rest: string)
    requires Level(t) == Some(0)
    ensures Pieces(t + "," + rest, 0, [])
         == var r := Pieces(rest, 0, []); if r.None? then None else Some([t] + r.value)
  {
    PiecesOfToken(t, "," + rest);
    assert t + "," + rest == t + ("," + rest);
    assert ("," + rest)[1..] == rest;
  }

  // Nothing a reader trims is a graphic ASCII character.
  ghost predicate Neutral(space: Spaces) {
    forall c :: '!' <= c <= '~' ==> !space(c)
  }

  predicate Plain(t: string) {
    forall i :: 0 <= i < |t| ==> '!' <= t[i] <= '~' && t[i] !in "(),"
  }

  lemma {:induction false} PlainLevel(t: string)
    requires Plain(t)
    ensures Level(t) == Some(0)
  {
    if t != [] {
      PlainLevel(t[..|t| - 1]);
    }
  }

  /** Graphic text without parentheses and commas is a token. */
  lemma PlainIsWellFormed(space: Spaces, t: string)
    requires Neutral(space) && t != [] && Plain(t)
    ensures WellFormed(space, t)
  {
    PlainLevel(t);
  }

  lemma {:induction false} LevelOfTrimRight(space: Spaces, s: string)
    requires Neutral(space) && Level(s) == Some(0)
    ensures Level(TrimRight(space, s)) == Some(0)
  {
    if s != [] && space(s[|s| - 1]) {
      LevelOfTrimRight(space, s[..|s| - 1]);
    }
  }

  lemma {:induction false} LevelDropsBlank(s: string, n: nat)
    requires 1 <= n <= |s| && s[0] !in "(),"
    ensures Level(s[..n]) == Level(s[1..n])
  {
    if n == 1 {
      assert s[..1][..0] == [] && s[1..1] == [];
    } else {
      LevelDropsBlank(s, n - 1);
      assert s[..n][..n - 1] == s[..n - 1];
      assert s[1..n][..n - 2] == s[1..n - 1];
    }
  }

  lemma {:induction false} LevelOfTrimLeft(space: Spaces, s: string)
    requires Neutral(space) && Level(s) == Some(0)
    ensures Level(TrimLeft(space, s)) == Some(0)
  {
    if s != [] && space(s[0]) {
      LevelDropsBlank(s, |s|);
      assert s[..|s|] == s && s[1..|s|] == s[1..];
      LevelOfTrimLeft(space, s[1..]);
    }
  }

  lemma {:induction false} TrimRightDone(space: Spaces, s: string)
    ensures var t := TrimRight(space, s); t == [] || !space(t[|t| - 1])
    ensures TrimRight(space, s) != [] ==> s != [] && TrimRight(space, s)[0] == s[0]
  {
    if s != [] && space(s[|s| - 1]) {
      TrimRightDone(space, s[..|s| - 1]);
    }
  }

  lemma {:induction false} TrimLeftDone(space: Spaces, s: string)
    ensures var t := TrimLeft(space, s); t == [] || !space(t[0])
  {
    if s != [] && space(s[0]) {
      TrimLeftDone(space, s[1..]);
    }
  }

  lemma TrimTrim(space: Spaces, s: string)
    ensures Trim(space, Trim(space, s)) == Trim(space, s)
  {
    TrimLeftDone(space, s);
    TrimRightDone(space, TrimLeft(space, s));
  }

  predicate Balanced(pieces: Option<seq<string>>) {
    pieces.Some? ==> forall i :: 0 <= i < |pieces.value| ==> Level(pieces.value[i]) == Some(0)
  }

  lemma {:induction false} PiecesLevel(s: string, depth: nat, current: string)
    requires Level(current) == Some(depth)
    ensures Balanced(Pieces(s, depth, current))
  {
    if s != [] {
      LevelAppend(current, s[0]);
      if s[0] == '(' {
        PiecesLevel(s[1..], depth + 1, current + [s[0]]);
      } else if s[0] == ')' {
        if depth > 0 {
          PiecesLevel(s[1..], depth - 1, current + [s[0]]);
        } else {
          assert Pieces(s, depth, current).None?;
        }
      } else if s[0] == ',' && depth == 0 {
        PiecesLevel(s[1..], 0, []);
      } else {
        PiecesLevel(s[1..], depth, current + [s[0]]);
      }
    }
  }

  lemma LevelAppend(t: string, c: char)
    requires Level(t).Some?
    ensures Level(t + [c])
         == if c == '(' then Some(Level(t).value + 1)
            else if c == ')' then if Level(t).value == 0 then None else Some(Level(t).value - 1)
            else if c == ',' && Level(t).value == 0 then None
            else Level(t)
  {
    assert (t + [c])[..|t|] == t;
  }

  /** Whatever a reader accepts, it hands out well-formed tokens. */
  lemma SplitIsWellFormed(space: Spaces, s: string)
    requires Neutral(space)
    ensures Split(space, s).Some? ==> AllWellFormed(space, Split(space, s).value)
  {
    PiecesLevel(s, 0, []);
    var r := Pieces(s, 0, []);
    if r.Some? && [] !in TrimAll(space, r.value) {
      var tokens := TrimAll(space, r.value);
      forall i | 0 <= i < |tokens|
        ensures WellFormed(space, tokens[i])
      {
        assert tokens[i] in tokens;
        TrimTrim(space, r.value[i]);
        LevelOfTrimLeft(space, r.value[i]);
        LevelOfTrimRight(space, TrimLeft(space, r.value[i]));
      }
    }
  }

  /** Joining and splitting gives a list of tokens back exactly when every token is well-formed. */
  lemma JoinSplits(space: Spaces, tokens: seq<string>)
    requires Neutral(space)
    ensures Split(space, JoinSig(tokens)) == Some(tokens) <==> AllWellFormed(space, tokens)
  {
    if AllWellFormed(space, tokens) {
      if tokens == [] {
        FinishLast(space, [], []);
      } else {
        forall i | 0 <= i < |tokens|
          ensures Level(tokens[i]) == Some(0)
        {
          assert WellFormed(space, tokens[i]);
        }
        PiecesOfJoin(tokens);
        assert TrimAll(space, tokens) == tokens;
        assert [] + tokens == tokens;
      }
    } else if Split(space, JoinSig(tokens)) == Some(tokens) {
      SplitIsWellFormed(space, JoinSig(tokens));
      assert false;
    }
  }

  lemma {:induction false} OnePiece(s: string, depth: nat, current: string)
    requires Pieces(s, depth, current).Some? && |Pieces(s, depth, current).value| == 1
    ensures Pieces(s, depth, current).value == [current + s]
  {
    if s == [] {
      assert current + s == current;
    } else {
      assert current + [s[0]] + s[1..] == current + s;
      if s[0] == '(' {
        OnePiece(s[1..], depth + 1, current + [s[0]]);
      } else if s[0] == ')' {
        OnePiece(s[1..], depth - 1, current + [s[0]]);
      } else if s[0] != ',' || depth > 0 {
        OnePiece(s[1..], depth, current + [s[0]]);
      }
    }
  }

  /** Only blank text has no tokens. */
  lemma SplitNotEmpty(space: Spaces, s: string)
    requires Trim(space, s) != [] && Split(space, s).Some?
    ensures Split(space, s).value != []
  {
    var pieces := Pieces(s, 0, []);
    if |pieces.value| == 1 {
      OnePiece(s, 0, []);
      assert [] + s == s;
      FinishLast(space, [], s);
    }
  }
}
