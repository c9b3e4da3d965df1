/**
 * Compilation of a service id into the anchored, case-insensitive regular
 * expression `Project.addMicroservice` builds, and the meaning of the
 * regular-expression subset that compilation emits.
 */
module Patterns {

  /** `s.replace(from, to)` with a one-character string pattern: only the
      FIRST occurrence is replaced. */
  function ReplaceFirst(s: string, from: char, to: string): (r: string)
    ensures from !in s ==> r == s
  {
    if s == [] then []
    else if s[0] == from then to + s[1..]
    else [s[0]] + ReplaceFirst(s[1..], from, to)
  }

  /** Only the first occurrence is replaced: everything before it is free
      of `from`, and everything after it is kept as it is. */
  lemma {:induction false} ReplaceFirstSplit(pre: string, post: string, from: char, to: string)
    requires from !in pre
    ensures ReplaceFirst(pre + [from] + post, from, to) == pre + to + post
  {
    var s := pre + [from] + post;
    if pre == [] {
      assert s == [from] + post;
      assert s[1..] == post;
    } else {
      assert s[0] == pre[0];
      assert s[1..] == pre[1..] + [from] + post;
      assert from !in pre[1..] by {
        assert forall x :: x in pre[1..] ==> x in pre;
      }
      ReplaceFirstSplit(pre[1..], post, from, to);
      assert pre + to + post == [pre[0]] + (pre[1..] + to + post);
    }
  }

  /** The regular expression object: its source text and its `i` flag. */
  datatype RegExp = RegExp(source: string, ignoreCase: bool)

  /** Characters that would be regular-expression syntax if an id held them
      (besides `.` and `*`, which compilation handles). */
  predicate RegexSpecial(c: char)
  {
    || c == '\\' || c == '^' || c == '$' || c == '+' || c == '?' || c == '(' || c == ')'
    || c == '[' || c == ']' || c == '{' || c == '}' || c == '|' || c == '/'
  }

  /** The ids the compiled pattern is defined for: no regex syntax other
      than `.` and `*`, and at most one `*` (a second one would be left as
      a quantifier in the regular expression). */
  predicate Supported(id: string)
  {
    && (forall i :: 0 <= i < |id| ==> !RegexSpecial(id[i]))
    && (forall i, j :: 0 <= i < j < |id| && id[i] == '*' ==> id[j] != '*')
  }

  /** The text between `^` and `$`: the first `.` escaped, then the first
      `*` turned into `.+`. */
  function EscapedId(id: string): string
  {
    ReplaceFirst(ReplaceFirst(id, '.', "\\."), '*', ".+")
  }

  /** `new RegExp('^' + escaped + '$', 'i')`. */
  function Compile(id: string): (re: RegExp)
    ensures re.ignoreCase
    ensures Anchored(re.source) && Body(re.source) == EscapedId(id)
  {
    RegExp("^" + EscapedId(id) + "$", true)
  }

  predicate Anchored(source: string)
  {
    |source| >= 2 && source[0] == '^' && source[|source| - 1] == '$'
  }

  function Body(source: string): string
    requires Anchored(source)
  {
    source[1..|source| - 1]
  }

  /** The regular-expression atoms compilation can emit. */
  datatype Token =
    | Lit(c: char)   // a literal character, or `\.`
    | AnyChar        // `.`
    | AnyPlus        // `.+`

  /** Reads the body of a pattern in the subset: `\x` is the literal x,
      `.+` one or more characters, `.` one character, anything else itself. */
  function Tokens(body: string): seq<Token>
    decreases |body|
  {
    if body == [] then []
    else if body[0] == '\\' && |body| >= 2 then [Lit(body[1])] + Tokens(body[2..])
    else if body[0] == '.' && |body| >= 2 && body[1] == '+' then [AnyPlus] + Tokens(body[2..])
    else if body[0] == '.' then [AnyChar] + Tokens(body[1..])
    else [Lit(body[0])] + Tokens(body[1..])
  }

  /** JavaScript's `.` matches everything except these. */
  predicate LineTerminator(c: char)
  {
    c == '\n' || c == '\r' || c == '\U{2028}' || c == '\U{2029}'
  }

  /** ASCII case folding, used for the `i` flag. */
  function Fold(c: char): char
  {
    if 'A' <= c <= 'Z' then (c as int + 32) as char else c
  }

  predicate SameChar(pattern: char, c: char, ignoreCase: bool)
  {
    if ignoreCase then Fold(pattern) == Fold(c) else pattern == c
  }

  /** Whether the whole of `s` matches the token sequence. */
  predicate MatchTokens(t: seq<Token>, s: string, ignoreCase: bool)
    decreases |t| + |s|
  {
    if t == [] then s == []
    else if s == [] then false
    else match t[0]
      case Lit(c) => SameChar(c, s[0], ignoreCase) && MatchTokens(t[1..], s[1..], ignoreCase)
      case AnyChar => !LineTerminator(s[0]) && MatchTokens(t[1..], s[1..], ignoreCase)
      case AnyPlus =>
        !LineTerminator(s[0]) && (MatchTokens(t[1..], s[1..], ignoreCase) || MatchTokens(t, s[1..], ignoreCase))
  }

  /** `re.test(s)` for an anchored pattern in the subset. */
  predicate Test(re: RegExp, s: string)
    requires Anchored(re.source)
  {
    MatchTokens(Tokens(Body(re.source)), s, re.ignoreCase)
  }

  /** What an id means as a pattern, read directly off the id: its first
      `.` is a literal dot, any later `.` is any one character, its first
      `*` is one or more characters, and every other character is itself. */
  function IdTokens(id: string, dotSeen: bool, starSeen: bool): (t: seq<Token>)
    ensures |t| == |id|
  {
    if id == [] then []
    else if id[0] == '.' && !dotSeen then [Lit('.')] + IdTokens(id[1..], true, starSeen)
    else if id[0] == '.' then [AnyChar] + IdTokens(id[1..], dotSeen, starSeen)
    else if id[0] == '*' && !starSeen then [AnyPlus] + IdTokens(id[1..], dotSeen, true)
    else [Lit(id[0])] + IdTokens(id[1..], dotSeen, starSeen)
  }

  function IdPattern(id: string): seq<Token>
  {
    IdTokens(id, false, false)
  }

  /** The body produced so far when the first `.` (dotSeen) or the first `*`
      (starSeen) has already been replaced in an earlier part of the id. */
  function EscapedFrom(id: string, dotSeen: bool, starSeen: bool): string
  {
    var a := if dotSeen then id else ReplaceFirst(id, '.', "\\.");
    if starSeen then a else ReplaceFirst(a, '*', ".+")
  }

  lemma EscapedFromHead(id: string, dotSeen: bool, starSeen: bool)
    requires Supported(id) && id != []
    ensures EscapedFrom(id, dotSeen, starSeen) != []
    ensures EscapedFrom(id, dotSeen, starSeen)[0] != '+'
  {
    assert !RegexSpecial(id[0]);
  }

  /** How one leading character of the id shows up in the body. */
  lemma EscapedFromCons(c: char, rest: string, dotSeen: bool, starSeen: bool)
    requires c != '*' || !starSeen
    ensures c == '.' && !dotSeen ==> EscapedFrom([c] + rest, dotSeen, starSeen) == "\\." + EscapedFrom(rest, true, starSeen)
    ensures c == '.' && dotSeen ==> EscapedFrom([c] + rest, dotSeen, starSeen) == "." + EscapedFrom(rest, dotSeen, starSeen)
    ensures c == '*' ==> EscapedFrom([c] + rest, dotSeen, starSeen) == ".+" + EscapedFrom(rest, dotSeen, true)
    ensures c != '.' && c != '*' ==> EscapedFrom([c] + rest, dotSeen, starSeen) == [c] + EscapedFrom(rest, dotSeen, starSeen)
  {
    var id := [c] + rest;
    assert id[0] == c && id[1..] == rest;
    if c == '.' && !dotSeen {
      var a := "\\." + rest;
      assert ReplaceFirst(id, '.', "\\.") == a;
      if !starSeen {
        assert a[1..] == "." + rest && (a[1..])[1..] == rest;
        assert ReplaceFirst(a[1..], '*', ".+") == "." + ReplaceFirst(rest, '*', ".+");
      }
    } else if c != '.' && !dotSeen {
      assert ReplaceFirst(id, '.', "\\.") == [c] + ReplaceFirst(rest, '.', "\\.");
    }
  }

  /** How the tokenizer reads the first atom of a body. */
  lemma TokensCons(y: string)
    ensures Tokens("\\." + y) == [Lit('.')] + Tokens(y)
    ensures Tokens(".+" + y) == [AnyPlus] + Tokens(y)
    ensures y == [] || y[0] != '+' ==> Tokens("." + y) == [AnyChar] + Tokens(y)
    ensures forall c :: c != '\\' && c != '.' ==> Tokens([c] + y) == [Lit(c)] + Tokens(y)
  {
    assert ("\\." + y)[2..] == y;
    assert (".+" + y)[2..] == y;
    assert ("." + y)[1..] == y;
    assert forall c :: ([c] + y)[1..] == y;
  }

  lemma {:induction false} EscapedFromTokens(id: string, dotSeen: bool, starSeen: bool)
    requires Supported(id)
    requires starSeen ==> '*' !in id
    ensures Tokens(EscapedFrom(id, dotSeen, starSeen)) == IdTokens(id, dotSeen, starSeen)
    decreases |id|
  {
    if id != [] {
      var c, rest := id[0], id[1..];
      assert id == [c] + rest;
      assert Supported(rest) by {
        assert forall i :: 0 <= i < |rest| ==> rest[i] == id[i + 1];
      }
      assert !RegexSpecial(c);
      EscapedFromCons(c, rest, dotSeen, starSeen);
      if c == '.' && !dotSeen {
        EscapedFromTokens(rest, true, starSeen);
        TokensCons(EscapedFrom(rest, true, starSeen));
      } else if c == '.' {
        EscapedFromTokens(rest, dotSeen, starSeen);
        if rest != [] {
          EscapedFromHead(rest, dotSeen, starSeen);
        }
        TokensCons(EscapedFrom(rest, dotSeen, starSeen));
      } else if c == '*' {
        assert '*' !in rest by {
          forall i | 0 <= i < |rest| ensures rest[i] != '*' {
            assert id[0] == '*' && id[i + 1] == rest[i];
          }
        }
        EscapedFromTokens(rest, dotSeen, true);
        TokensCons(EscapedFrom(rest, dotSeen, true));
      } else {
        assert starSeen ==> '*' !in rest;
        EscapedFromTokens(rest, dotSeen, starSeen);
        TokensCons(EscapedFrom(rest, dotSeen, starSeen));
      }
    }
  }

  /** Compilation is faithful to the id's meaning: for a supported id, the
      compiled regular expression is exactly the id's own token pattern, and
      it ignores case. */
  lemma CompileMeaning(id: string)
    requires Supported(id)
    ensures Tokens(Body(Compile(id).source)) == IdPattern(id)
    ensures forall s :: Test(Compile(id), s) <==> MatchTokens(IdPattern(id), s, true)
  {
    EscapedFromTokens(id, false, false);
  }

  /** Every token consumes at least one character. */
  lemma {:induction false} MatchTokensLength(t: seq<Token>, s: string, ignoreCase: bool)
    requires MatchTokens(t, s, ignoreCase)
    ensures |s| >= |t|
    ensures AnyPlus !in t ==> |s| == |t|
    decreases |t| + |s|
  {
    if t != [] {
      match t[0]
      case Lit(_) =>
        assert AnyPlus in t[1..] ==> AnyPlus in t;
        MatchTokensLength(t[1..], s[1..], ignoreCase);
      case AnyChar =>
        assert AnyPlus in t[1..] ==> AnyPlus in t;
        MatchTokensLength(t[1..], s[1..], ignoreCase);
      case AnyPlus =>
        if MatchTokens(t[1..], s[1..], ignoreCase) {
          MatchTokensLength(t[1..], s[1..], ignoreCase);
        } else {
          MatchTokensLength(t, s[1..], ignoreCase);
        }
    }
  }

  /** `.+` consumes any non-empty run of characters other than line
      terminators before the rest of the pattern. */
  lemma {:induction false} AnyPlusPrefix(rest: seq<Token>, u: string, v: string, ignoreCase: bool)
    requires u != [] && forall i :: 0 <= i < |u| ==> !LineTerminator(u[i])
    requires MatchTokens(rest, v, ignoreCase)
    ensures MatchTokens([AnyPlus] + rest, u + v, ignoreCase)
    decreases |u|
  {
    assert ([AnyPlus] + rest)[1..] == rest;
    assert (u + v)[0] == u[0];
    if |u| == 1 {
      assert (u + v)[1..] == v;
    } else {
      AnyPlusPrefix(rest, u[1..], v, ignoreCase);
      assert (u + v)[1..] == u[1..] + v;
    }
  }

  function FoldAll(s: string): (r: string)
    ensures |r| == |s|
    ensures forall i :: 0 <= i < |s| ==> r[i] == Fold(s[i])
  {
    if s == [] then [] else [Fold(s[0])] + FoldAll(s[1..])
  }

  /** With the `i` flag, matching does not depend on the case of ASCII
      letters in the tested string. */
  lemma {:induction false} MatchIgnoresCase(t: seq<Token>, s: string)
    ensures MatchTokens(t, s, true) == MatchTokens(t, FoldAll(s), true)
    decreases |t| + |s|
  {
    if t != [] && s != [] {
      var f := FoldAll(s);
      assert f[1..] == FoldAll(s[1..]);
      assert !LineTerminator(s[0]) <==> !LineTerminator(f[0]);
      match t[0]
      case Lit(_) => MatchIgnoresCase(t[1..], s[1..]);
      case AnyChar => MatchIgnoresCase(t[1..], s[1..]);
      case AnyPlus =>
        MatchIgnoresCase(t[1..], s[1..]);
        MatchIgnoresCase(t, s[1..]);
    }
  }
}
