/**
 Placeholder substitution in certificate text.

 The backend (certificates/variables.py) replaces `{{key}}` one key at a time over the whole
 string. The designer preview (frontend/src/certificate/types.ts) makes one left-to-right pass
 with the pattern `{{(\w+)}}`. Both are defined here as the code runs them; `Fill` is the
 reference meaning of a text that is a row of literals and placeholders, and the main theorem
 says exactly when the two programs agree.
 */
module Substitution {
  import opened Basics

  /** One entry of the variables dictionary, in insertion order. */
  datatype Binding = Binding(key: string, value: string)

  /** A text as its author sees it: literal runs and placeholders. */
  datatype Token = Literal(text: string) | Placeholder(name: string)

  datatype Element = Element(id: string, content: Option<string>)

  predicate IsWordChar(c: char) {
    'a' <= c <= 'z' || 'A' <= c <= 'Z' || '0' <= c <= '9' || c == '_'
  }

  predicate IsWord(s: string) {
    s != "" && forall i | 0 <= i < |s| :: IsWordChar(s[i])
  }

  predicate IsBrace(c: char) {
    c == '{' || c == '}'
  }

  predicate BraceFree(s: string) {
    forall i | 0 <= i < |s| :: !IsBrace(s[i])
  }

  predicate NoOpenBrace(s: string) {
    forall i | 0 <= i < |s| :: s[i] != '{'
  }

  function Pattern(key: string): (p: string)
  {
    "{{" + key + "}}"
  }

  // ---------------------------------------------------------------- backend

  /** Leftmost, non-overlapping replacement that never rescans what it inserted. */
  function Replace(s: string, pattern: string, value: string): string
    requires pattern != ""
    decreases |s|
  {
    if |s| < |pattern| then s
    else if s[..|pattern|] == pattern then value + Replace(s[|pattern|..], pattern, value)
    else [s[0]] + Replace(s[1..], pattern, value)
  }

  function SubstituteAll(text: string, vars: seq<Binding>): string {
    if vars == [] then text
    else
      var last := vars[|vars| - 1];
      Replace(SubstituteAll(text, vars[..|vars| - 1]), Pattern(last.key), last.value)
  }

  lemma {:induction false} SubstituteNothing(vars: seq<Binding>)
    ensures SubstituteAll("", vars) == ""
  {
    if vars != [] {
      SubstituteNothing(vars[..|vars| - 1]);
    }
  }

  method Substitute(text: string, vars: seq<Binding>) returns (out: string)
    ensures out == SubstituteAll(text, vars)
  {
    if text == "" {
      SubstituteNothing(vars);
      return "";
    }
    out := text;
    for i := 0 to |vars|
      invariant out == SubstituteAll(text, vars[..i])
    {
      assert vars[..i + 1][..i] == vars[..i];
      out := Replace(out, Pattern(vars[i].key), vars[i].value);
    }
    assert vars[..|vars|] == vars;
  }

  // --------------------------------------------------------------- frontend

  /** Length of the longest prefix made of word characters. */
  function WordRun(s: string): (n: nat)
    ensures n <= |s|
  {
    if s == "" || !IsWordChar(s[0]) then 0 else 1 + WordRun(s[1..])
  }

  /** Length of a `{{word}}` match at the head of `s`; 0 when there is none. */
  function MatchLength(s: string): (n: nat)
    ensures n == 0 || 5 <= n <= |s|
  {
    if |s| < 2 || s[..2] != "{{" then 0
    else
      var w := WordRun(s[2..]);
      if w > 0 && w + 4 <= |s| && s[w + 2..w + 4] == "}}" then w + 4 else 0
  }

  function SubstituteVars(text: string, vars: map<string, string>): string
    decreases |text|
  {
    if text == "" then ""
    else
      var n := MatchLength(text);
      if n == 0 then [text[0]] + SubstituteVars(text[1..], vars)
      else
        var key := text[2..n - 2];
        (if key in vars then vars[key] else Pattern(key)) + SubstituteVars(text[n..], vars)
  }

  // ------------------------------------------------- meaning of a text

  function RenderToken(t: Token): string {
    match t
    case Literal(text) => text
    case Placeholder(name) => Pattern(name)
  }

  function Render(tokens: seq<Token>): string {
    if tokens == [] then "" else RenderToken(tokens[0]) + Render(tokens[1..])
  }

  predicate WellFormed(tokens: seq<Token>) {
    forall i | 0 <= i < |tokens| ::
      match tokens[i]
      case Literal(text) => NoOpenBrace(text)
      case Placeholder(name) => BraceFree(name)
  }

  function FillToken(t: Token, vars: map<string, string>): Token {
    match t
    case Literal(_) => t
    case Placeholder(name) => if name in vars then Literal(vars[name]) else t
  }

  /** Every placeholder that has a value becomes that value; everything else stays. */
  function Fill(tokens: seq<Token>, vars: map<string, string>): (r: seq<Token>)
    ensures |r| == |tokens|
    ensures forall i | 0 <= i < |tokens| :: r[i] == FillToken(tokens[i], vars)
  {
    seq(|tokens|, i requires 0 <= i < |tokens| => FillToken(tokens[i], vars))
  }

  /** The dictionary as a lookup table. */
  function Lookup(vars: seq<Binding>): (m: map<string, string>)
    ensures forall k | k in m :: exists i | 0 <= i < |vars| :: vars[i] == Binding(k, m[k])
  {
    if vars == [] then map[]
    else Lookup(vars[..|vars| - 1])[vars[|vars| - 1].key := vars[|vars| - 1].value]
  }

  predicate Dictionary(vars: seq<Binding>) {
    forall i, j | 0 <= i < j < |vars| :: vars[i].key != vars[j].key
  }

  /** No key carries a brace and no value could begin a placeholder of its own. */
  predicate Plain(vars: seq<Binding>) {
    forall i | 0 <= i < |vars| :: BraceFree(vars[i].key) && NoOpenBrace(vars[i].value)
  }

  /** The part of the dictionary the preview's `\w+` pattern can reach. */
  function WordKeys(vars: map<string, string>): map<string, string> {
    map k | k in vars && IsWord(k) :: vars[k]
  }

  // ------------------------------------------------------ backend alignment

  lemma {:induction false} ReplaceSkips(a: string, rest: string, key: string, value: string)
    requires NoOpenBrace(a)
    ensures Replace(a + rest, Pattern(key), value) == a + Replace(rest, Pattern(key), value)
  {
    if a == "" {
      assert a + rest == rest;
    } else {
      var s := a + rest;
      assert s[1..] == a[1..] + rest;
      ReplaceSkips(a[1..], rest, key, value);
      if |Pattern(key)| <= |s| {
        assert s[..|Pattern(key)|][0] == a[0] && Pattern(key)[0] == '{';
        assert Replace(s, Pattern(key), value) == [s[0]] + Replace(s[1..], Pattern(key), value);
      }
    }
  }

  /** `{{key}}` heads `{{name}}...` only when the names are equal. */
  lemma PatternPrefix(name: string, key: string, rest: string)
    requires BraceFree(name) && BraceFree(key)
    requires Pattern(key) <= Pattern(name) + rest
    ensures key == name
  {
    var s := Pattern(name) + rest;
    assert forall i | 0 <= i < |name| :: s[i + 2] == name[i];
    assert forall i | 0 <= i < |key| :: Pattern(key)[i + 2] == key[i];
    assert s[2 + |name|] == '}';
    assert Pattern(key)[2 + |key|] == '}';
    assert forall i | 0 <= i < |Pattern(key)| :: s[i] == Pattern(key)[i];
    assert |key| == |name|;
  }

  lemma {:induction false} ReplacePlaceholder(name: string, rest: string, key: string, value: string)
    requires BraceFree(name) && BraceFree(key)
    ensures Replace(Pattern(name) + rest, Pattern(key), value)
         == (if name == key then value else Pattern(name)) + Replace(rest, Pattern(key), value)
  {
    var p := Pattern(key);
    var s := Pattern(name) + rest;
    if name == key {
      assert s[..|p|] == p && s[|p|..] == rest;
    } else {
      var tail := name + "}}";
      var s1 := "{" + tail + rest;
      assert s[1..] == s1;
      assert s1[1..] == tail + rest;
      ReplaceSkips(tail, rest, key, value);
      if |p| <= |s| && s[..|p|] == p {
        PatternPrefix(name, key, rest);
      }
      assert Replace(s, p, value) == "{" + Replace(s1, p, value);
      assert s1[1] != '{';
      if |p| <= |s1| {
        assert s1[..|p|][1] != p[1];
      }
      assert Replace(s1, p, value) == "{" + Replace(tail + rest, p, value);
      assert "{" + ("{" + (tail + Replace(rest, p, value))) == Pattern(name) + Replace(rest, p, value);
    }
  }

  // ---------------------------------------- values that hold placeholders

  /** The text is a row of literals and placeholders; a value may be one too. */
  ghost predicate RowText(s: string) {
    exists tokens :: WellFormed(tokens) && Render(tokens) == s
  }

  ghost predicate RowValued(vars: seq<Binding>) {
    forall i | 0 <= i < |vars| :: BraceFree(vars[i].key) && RowText(vars[i].value)
  }

  lemma {:induction false} RenderConcat(a: seq<Token>, b: seq<Token>)
    ensures Render(a + b) == Render(a) + Render(b)
  {
    if a == [] {
      assert a + b == b;
    } else {
      assert (a + b)[1..] == a[1..] + b;
      RenderConcat(a[1..], b);
    }
  }

  lemma RowConcat(a: string, b: string)
    requires RowText(a) && RowText(b)
    ensures RowText(a + b)
  {
    var s :| WellFormed(s) && Render(s) == a;
    var t :| WellFormed(t) && Render(t) == b;
    RenderConcat(s, t);
    assert WellFormed(s + t);
  }

  lemma TokenIsRow(t: Token)
    requires WellFormed([t])
    ensures RowText(RenderToken(t))
  {
    assert Render([t]) == RenderToken(t) + "" == RenderToken(t);
  }

  /** One token is replaced on its own, whatever follows it. */
  lemma {:induction false} ReplaceToken(t: Token, rest: string, key: string, value: string)
    requires WellFormed([t]) && BraceFree(key)
    ensures Replace(RenderToken(t) + rest, Pattern(key), value)
         == RenderToken(FillToken(t, map[key := value])) + Replace(rest, Pattern(key), value)
  {
    assert [t][0] == t;
    match t
    case Literal(text) => ReplaceSkips(text, rest, key, value);
    case Placeholder(name) => ReplacePlaceholder(name, rest, key, value);
  }

  /** No placeholder straddles the end of a row. */
  lemma {:induction false} ReplaceRow(tokens: seq<Token>, rest: string, key: string, value: string)
    requires WellFormed(tokens) && BraceFree(key)
    ensures Replace(Render(tokens) + rest, Pattern(key), value)
         == Replace(Render(tokens), Pattern(key), value) + Replace(rest, Pattern(key), value)
  {
    hide Replace, FillToken;
    if tokens == [] {
      assert "" + rest == rest;
      ReplaceNothing(key, value);
    } else {
      var t, tail := tokens[0], tokens[1..];
      assert WellFormed([t]);
      ReplaceRow(tail, rest, key, value);
      ReplaceToken(t, Render(tail), key, value);
      ReplaceToken(t, Render(tail) + rest, key, value);
      assert Render(tokens) + rest == RenderToken(t) + (Render(tail) + rest);
    }
  }

  /** Replacing a row in a row gives a row. */
  lemma {:induction false} ReplacedRowIsRow(tokens: seq<Token>, key: string, value: string)
    requires WellFormed(tokens) && BraceFree(key) && RowText(value)
    ensures RowText(Replace(Render(tokens), Pattern(key), value))
  {
    hide Replace, FillToken, RowText;
    if tokens == [] {
      ReplaceNothing(key, value);
      EmptyIsRow();
    } else {
      var t, tail := tokens[0], tokens[1..];
      assert WellFormed([t]);
      ReplacedRowIsRow(tail, key, value);
      ReplaceToken(t, Render(tail), key, value);
      FilledTokenIsRow(t, key, value);
      RowConcat(RenderToken(FillToken(t, map[key := value])), Replace(Render(tail), Pattern(key), value));
    }
  }

  lemma EmptyIsRow()
    ensures RowText("")
  {
    assert WellFormed([]) && Render([]) == "";
  }

  lemma {:induction false} ReplaceNothing(key: string, value: string)
    ensures Replace("", Pattern(key), value) == ""
  {
  }

  lemma FilledTokenIsRow(t: Token, key: string, value: string)
    requires WellFormed([t]) && RowText(value)
    ensures RowText(RenderToken(FillToken(t, map[key := value])))
  {
    if FillToken(t, map[key := value]) == t {
      TokenIsRow(t);
    }
  }

  /** What each variable finally stands for: its value after the keys that come later were replaced in it. */
  function Settled(vars: seq<Binding>): map<string, string> {
    if vars == [] then map[]
    else
      var front, last := Settled(vars[..|vars| - 1]), vars[|vars| - 1];
      (map k | k in front :: Replace(front[k], Pattern(last.key), last.value))[last.key := last.value]
  }

  lemma {:induction false} SettledRows(vars: seq<Binding>)
    requires RowValued(vars)
    ensures forall k | k in Settled(vars) :: RowText(Settled(vars)[k])
    ensures Settled(vars).Keys == Lookup(vars).Keys
  {
    hide Replace, RowText;
    if vars != [] {
      var front, last := vars[..|vars| - 1], vars[|vars| - 1];
      SettledRows(front);
      forall k | k in Settled(front) ensures RowText(Replace(Settled(front)[k], Pattern(last.key), last.value)) {
        ReplaceRowText(Settled(front)[k], last.key, last.value);
      }
    }
  }

  lemma {:induction false} ReplaceRowText(a: string, key: string, value: string)
    requires RowText(a) && RowText(value) && BraceFree(key)
    ensures RowText(Replace(a, Pattern(key), value))
  {
    var tokens :| WellFormed(tokens) && Render(tokens) == a;
    ReplacedRowIsRow(tokens, key, value);
  }

  /** Replacing one more key in a filled text replaces it in every filled-in value. */
  lemma {:induction false} ReplaceInFilled(
      tokens: seq<Token>, filled: map<string, string>, key: string, value: string, after: map<string, string>)
    requires WellFormed(tokens) && BraceFree(key) && key !in filled
    requires forall k | k in filled :: RowText(filled[k])
    requires after == (map k | k in filled :: Replace(filled[k], Pattern(key), value))[key := value]
    ensures Replace(Render(Fill(tokens, filled)), Pattern(key), value) == Render(Fill(tokens, after))
  {
    hide Replace;
    if tokens == [] {
      ReplaceNothing(key, value);
    } else {
      var t, tail := tokens[0], tokens[1..];
      assert WellFormed([t]);
      assert Fill(tokens, filled)[1..] == Fill(tail, filled) && Fill(tokens, after)[1..] == Fill(tail, after);
      ReplaceInFilled(tail, filled, key, value, after);
      var rest := Render(Fill(tail, filled));
      if t.Placeholder? && t.name in filled {
        var row :| WellFormed(row) && Render(row) == filled[t.name];
        ReplaceRow(row, rest, key, value);
      } else {
        ReplaceToken(t, rest, key, value);
      }
    }
  }

  /**
   The exact meaning of key-by-key replacement: every placeholder with a value becomes what its
   variable finally stands for.
   */
  lemma {:induction false} BackendCascades(tokens: seq<Token>, vars: seq<Binding>)
    requires WellFormed(tokens) && Dictionary(vars) && RowValued(vars)
    ensures SubstituteAll(Render(tokens), vars) == Render(Fill(tokens, Settled(vars)))
  {
    hide Replace;
    if vars == [] {
      assert Fill(tokens, map[]) == tokens;
    } else {
      var front, last := vars[..|vars| - 1], vars[|vars| - 1];
      BackendCascades(tokens, front);
      SettledRows(front);
      assert last.key !in Lookup(front);
      ReplaceInFilled(tokens, Settled(front), last.key, last.value, Settled(vars));
    }
  }

  lemma {:induction false} SettledIs(vars: seq<Binding>, i: nat)
    requires Dictionary(vars) && i < |vars|
    ensures vars[i].key in Settled(vars)
    ensures Settled(vars)[vars[i].key] == SubstituteAll(vars[i].value, vars[i + 1..])
  {
    hide Replace;
    var n := |vars| - 1;
    if i < n {
      SettledIs(vars[..n], i);
      assert vars[i + 1..][..n - i - 1] == vars[..n][i + 1..];
    }
  }

  /** Replacing the later keys in a variable's value leaves it as it is. */
  predicate Stable(vars: seq<Binding>) {
    forall i | 0 <= i < |vars| :: SubstituteAll(vars[i].value, vars[i + 1..]) == vars[i].value
  }

  /** On every text, key-by-key replacement gives each placeholder the value of its variable. */
  ghost predicate AlwaysFills(vars: seq<Binding>) {
    forall tokens | WellFormed(tokens) ::
      SubstituteAll(Render(tokens), vars) == Render(Fill(tokens, Lookup(vars)))
  }

  lemma OnePlaceholder(name: string, vars: map<string, string>)
    ensures Render(Fill([Placeholder(name)], vars)) == Shown(name, vars)
  {
    var filled := Fill([Placeholder(name)], vars);
    assert Render(filled) == RenderToken(filled[0]) + "";
  }

  /** What a placeholder shows under a table of values. */
  function Shown(name: string, vars: map<string, string>): string {
    if name in vars then vars[name] else Pattern(name)
  }

  lemma {:induction false} ShownAlike(tokens: seq<Token>, a: map<string, string>, b: map<string, string>)
    requires forall name :: Shown(name, a) == Shown(name, b)
    ensures Render(Fill(tokens, a)) == Render(Fill(tokens, b))
  {
    if tokens != [] {
      ShownAlike(tokens[1..], a, b);
      assert Fill(tokens, a)[1..] == Fill(tokens[1..], a) && Fill(tokens, b)[1..] == Fill(tokens[1..], b);
      if tokens[0].Placeholder? {
        assert Shown(tokens[0].name, a) == Shown(tokens[0].name, b);
      }
    }
  }

  /** The backend's text for a single placeholder. */
  lemma {:induction false} BackendShows(vars: seq<Binding>, i: nat)
    requires Dictionary(vars) && RowValued(vars) && i < |vars|
    ensures WellFormed([Placeholder(vars[i].key)])
    ensures SubstituteAll(Render([Placeholder(vars[i].key)]), vars) == SubstituteAll(vars[i].value, vars[i + 1..])
  {
    hide SubstituteAll, RowText, Render;
    BackendCascades([Placeholder(vars[i].key)], vars);
    OnePlaceholder(vars[i].key, Settled(vars));
    SettledIs(vars, i);
  }

  /** A table that shows for each key what the key-by-key replacement makes of it is right for every text. */
  lemma {:induction false} BackendReads(vars: seq<Binding>, table: map<string, string>)
    requires Dictionary(vars) && RowValued(vars) && table.Keys <= Lookup(vars).Keys
    requires forall i | 0 <= i < |vars| :: SubstituteAll(vars[i].value, vars[i + 1..]) == Shown(vars[i].key, table)
    ensures forall tokens | WellFormed(tokens) :: SubstituteAll(Render(tokens), vars) == Render(Fill(tokens, table))
  {
    hide SubstituteAll, RowText, Render;
    SettledRows(vars);
    forall name ensures Shown(name, Settled(vars)) == Shown(name, table) {
      if name in Lookup(vars) {
        var i :| 0 <= i < |vars| && vars[i] == Binding(name, Lookup(vars)[name]);
        SettledIs(vars, i);
      }
    }
    forall tokens | WellFormed(tokens) ensures SubstituteAll(Render(tokens), vars) == Render(Fill(tokens, table)) {
      BackendCascades(tokens, vars);
      ShownAlike(tokens, Settled(vars), table);
    }
  }

  /** Every text is filled as its author meant if and only if no value is changed by a later key. */
  lemma AlwaysFillsIff(vars: seq<Binding>)
    requires Dictionary(vars) && RowValued(vars)
    ensures AlwaysFills(vars) <==> Stable(vars)
  {
    hide SubstituteAll, RowText, Render;
    forall i | 0 <= i < |vars| ensures Shown(vars[i].key, Lookup(vars)) == vars[i].value {
      LookupFinds(vars, i);
    }
    if Stable(vars) {
      BackendReads(vars, Lookup(vars));
    }
    if AlwaysFills(vars) {
      forall i | 0 <= i < |vars| ensures SubstituteAll(vars[i].value, vars[i + 1..]) == vars[i].value {
        BackendShows(vars, i);
        OnePlaceholder(vars[i].key, Lookup(vars));
      }
    }
  }

  lemma {:induction false} PlainIsUntouched(text: string, vars: seq<Binding>)
    requires NoOpenBrace(text)
    ensures SubstituteAll(text, vars) == text
  {
    hide Replace;
    if vars != [] {
      var last := vars[|vars| - 1];
      PlainIsUntouched(text, vars[..|vars| - 1]);
      ReplaceSkips(text, "", last.key, last.value);
      ReplaceNothing(last.key, last.value);
      assert text + "" == text;
    }
  }

  lemma PlainIsStable(vars: seq<Binding>)
    requires Plain(vars)
    ensures RowValued(vars) && Stable(vars)
  {
    hide SubstituteAll;
    forall i | 0 <= i < |vars|
      ensures RowText(vars[i].value)
      ensures SubstituteAll(vars[i].value, vars[i + 1..]) == vars[i].value
    {
      TokenIsRow(Literal(vars[i].value));
      PlainIsUntouched(vars[i].value, vars[i + 1..]);
    }
  }

  /** Values that cannot begin a placeholder: key-by-key replacement computes the meaning of the text. */
  lemma {:induction false} BackendFills(tokens: seq<Token>, vars: seq<Binding>)
    requires WellFormed(tokens) && Dictionary(vars) && Plain(vars)
    ensures SubstituteAll(Render(tokens), vars) == Render(Fill(tokens, Lookup(vars)))
  {
    hide SubstituteAll, RowText, Render;
    PlainIsStable(vars);
    AlwaysFillsIff(vars);
  }

  // ----------------------------------------------------- frontend alignment

  lemma {:induction false} PassOneChar(c: char, s: string, vars: map<string, string>)
    requires MatchLength([c] + s) == 0
    ensures SubstituteVars([c] + s, vars) == [c] + SubstituteVars(s, vars)
  {
    assert ([c] + s)[1..] == s;
  }

  lemma NoMatchAtLiteral(c: char, s: string)
    requires c != '{'
    ensures MatchLength([c] + s) == 0
  {
    assert s != "" ==> ([c] + s)[..2][0] == c;
  }

  lemma {:induction false} PassSkips(a: string, rest: string, vars: map<string, string>)
    requires NoOpenBrace(a)
    ensures SubstituteVars(a + rest, vars) == a + SubstituteVars(rest, vars)
  {
    hide SubstituteVars, MatchLength;
    if a == "" {
      assert a + rest == rest;
    } else {
      assert a + rest == [a[0]] + (a[1..] + rest);
      NoMatchAtLiteral(a[0], a[1..] + rest);
      PassOneChar(a[0], a[1..] + rest, vars);
      PassSkips(a[1..], rest, vars);
      assert [a[0]] + (a[1..] + SubstituteVars(rest, vars)) == a + SubstituteVars(rest, vars);
    }
  }

  lemma {:induction false} WordRunStops(name: string, rest: string)
    requires BraceFree(name)
    ensures WordRun(name + "}}" + rest) == WordRun(name)
    ensures WordRun(name) == |name| <==> name == "" || IsWord(name)
  {
    var s := name + "}}" + rest;
    if name == "" {
      assert s[0] == '}';
    } else {
      assert s[0] == name[0] && s[1..] == name[1..] + "}}" + rest;
      WordRunStops(name[1..], rest);
      assert forall i | 0 <= i < |name[1..]| :: name[1..][i] == name[i + 1];
      assert IsWord(name) <==> IsWordChar(name[0]) && (name[1..] == "" || IsWord(name[1..])) by {
        if IsWordChar(name[0]) && (name[1..] == "" || IsWord(name[1..])) {
          forall i | 0 <= i < |name| ensures IsWordChar(name[i]) {
            assert i > 0 ==> name[i] == name[1..][i - 1];
          }
        }
      }
    }
  }

  lemma {:induction false} PassMatch(s: string, n: nat, vars: map<string, string>)
    requires MatchLength(s) == n > 0
    ensures SubstituteVars(s, vars)
         == (if s[2..n - 2] in vars then vars[s[2..n - 2]] else Pattern(s[2..n - 2])) + SubstituteVars(s[n..], vars)
  {
  }

  lemma MatchAtPlaceholder(name: string, rest: string)
    requires BraceFree(name)
    ensures MatchLength(Pattern(name) + rest) == if IsWord(name) then |name| + 4 else 0
  {
    var s := Pattern(name) + rest;
    assert s[..2] == "{{";
    assert s[2..] == name + "}}" + rest;
    WordRunStops(name, rest);
    var w := WordRun(s[2..]);
    if IsWord(name) {
      assert s[w + 2] == s[w + 3] == '}';
      assert s[w + 2..w + 4] == "}}";
    } else if 0 < w && w + 4 <= |s| {
      assert s[w + 2..w + 4][0] == s[w + 2] == name[w];
    }
  }

  lemma NoMatchAfterFirstBrace(tail: string)
    requires tail != "" && tail[0] != '{'
    ensures MatchLength("{" + tail) == 0
  {
    assert ("{" + tail)[..2][1] == tail[0];
  }

  lemma {:induction false} PassWord(name: string, rest: string, vars: map<string, string>)
    requires BraceFree(name) && IsWord(name)
    ensures SubstituteVars(Pattern(name) + rest, vars)
         == (if name in vars then vars[name] else Pattern(name)) + SubstituteVars(rest, vars)
  {
    var s := Pattern(name) + rest;
    MatchAtPlaceholder(name, rest);
    assert s[2..|name| + 2] == name;
    assert s[|name| + 4..] == rest;
    PassMatch(s, |name| + 4, vars);
  }

  lemma {:induction false} PassTwoBraces(body: string, vars: map<string, string>)
    requires body != "" && body[0] != '{'
    requires MatchLength("{" + ("{" + body)) == 0
    ensures SubstituteVars("{{" + body, vars) == "{{" + SubstituteVars(body, vars)
  {
    hide SubstituteVars, MatchLength;
    assert "{{" + body == "{" + ("{" + body);
    PassOneChar('{', "{" + body, vars);
    NoMatchAfterFirstBrace(body);
    PassOneChar('{', body, vars);
  }

  lemma {:induction false} PassNonWord(name: string, rest: string, vars: map<string, string>)
    requires BraceFree(name) && !IsWord(name)
    ensures SubstituteVars(Pattern(name) + rest, vars) == Pattern(name) + SubstituteVars(rest, vars)
  {
    hide SubstituteVars, MatchLength;
    var tail := name + "}}";
    var body := tail + rest;
    MatchAtPlaceholder(name, rest);
    assert Pattern(name) + rest == "{" + ("{" + body) == "{{" + body;
    assert body[0] == tail[0];
    PassTwoBraces(body, vars);
    PassSkips(tail, rest, vars);
    assert "{{" + (tail + SubstituteVars(rest, vars)) == Pattern(name) + SubstituteVars(rest, vars);
  }

  lemma {:induction false} PassPlaceholder(name: string, rest: string, vars: map<string, string>)
    requires BraceFree(name)
    ensures SubstituteVars(Pattern(name) + rest, vars)
         == (if name in vars && IsWord(name) then vars[name] else Pattern(name)) + SubstituteVars(rest, vars)
  {
    if IsWord(name) {
      PassWord(name, rest, vars);
    } else {
      PassNonWord(name, rest, vars);
    }
  }

  /** The single pass computes the meaning of the text over the word-named variables. */
  lemma {:induction false} FrontendFills(tokens: seq<Token>, vars: map<string, string>)
    requires WellFormed(tokens)
    ensures SubstituteVars(Render(tokens), vars) == Render(Fill(tokens, WordKeys(vars)))
  {
    if tokens != [] {
      var rest := Render(tokens[1..]);
      FrontendFills(tokens[1..], vars);
      assert Fill(tokens, WordKeys(vars))[1..] == Fill(tokens[1..], WordKeys(vars));
      match tokens[0]
      case Literal(text) => PassSkips(text, rest, vars);
      case Placeholder(name) => PassPlaceholder(name, rest, vars);
    }
  }

  // ----------------------------------------------------------- main results

  function Opens(s: string): nat {
    if s == "" then 0 else (if s[0] == '{' then 1 else 0) + Opens(s[1..])
  }

  lemma {:induction false} OpensConcat(a: string, b: string)
    ensures Opens(a + b) == Opens(a) + Opens(b)
  {
    if a == "" {
      assert a + b == b;
    } else {
      assert (a + b)[1..] == a[1..] + b;
      OpensConcat(a[1..], b);
    }
  }

  lemma {:induction false} OpensOfPlain(s: string)
    requires NoOpenBrace(s)
    ensures Opens(s) == 0
  {
    if s != "" {
      OpensOfPlain(s[1..]);
    }
  }

  lemma OpensOfPattern(name: string)
    requires BraceFree(name)
    ensures Opens(Pattern(name)) == 2
  {
    assert Pattern(name) == "{" + ("{" + (name + "}}"));
    assert Pattern(name)[1..] == "{" + (name + "}}");
    assert Pattern(name)[1..][1..] == name + "}}";
    OpensConcat(name, "}}");
    OpensOfPlain(name);
  }

  /** Some placeholder has a value but a name the preview's pattern cannot match. */
  ghost predicate HidesFromPreview(tokens: seq<Token>, vars: map<string, string>) {
    exists i | 0 <= i < |tokens| :: tokens[i].Placeholder? && tokens[i].name in vars && !IsWord(tokens[i].name)
  }

  lemma {:induction false} FewerOpens(tokens: seq<Token>, vars: map<string, string>)
    requires WellFormed(tokens)
    requires forall k | k in vars :: NoOpenBrace(vars[k])
    ensures Opens(Render(Fill(tokens, vars))) <= Opens(Render(Fill(tokens, WordKeys(vars))))
    ensures HidesFromPreview(tokens, vars)
        ==> Opens(Render(Fill(tokens, vars))) < Opens(Render(Fill(tokens, WordKeys(vars))))
  {
    if tokens != [] {
      var all, words := Fill(tokens, vars), Fill(tokens, WordKeys(vars));
      assert all[1..] == Fill(tokens[1..], vars);
      assert words[1..] == Fill(tokens[1..], WordKeys(vars));
      FewerOpens(tokens[1..], vars);
      OpensConcat(RenderToken(all[0]), Render(all[1..]));
      OpensConcat(RenderToken(words[0]), Render(words[1..]));
      if tokens[0].Placeholder? {
        var name := tokens[0].name;
        OpensOfPattern(name);
        if name in vars {
          OpensOfPlain(vars[name]);
        }
      }
      if HidesFromPreview(tokens, vars) && !HidesFromPreview(tokens[1..], vars) {
        assert tokens[0].Placeholder? && tokens[0].name in vars && !IsWord(tokens[0].name) by {
          var i :| 0 <= i < |tokens| && tokens[i].Placeholder? && tokens[i].name in vars && !IsWord(tokens[i].name);
          assert i > 0 ==> tokens[i] == tokens[1..][i - 1];
        }
      }
    }
  }

  lemma SameWhenNothingHides(tokens: seq<Token>, vars: map<string, string>)
    requires !HidesFromPreview(tokens, vars)
    ensures Fill(tokens, vars) == Fill(tokens, WordKeys(vars))
  {
  }

  /**
   The issued certificate and the preview show the same text if and only if no placeholder
   with a value has a name outside `\w+`.
   */
  lemma {:induction false} BackendAgreesWithPreview(tokens: seq<Token>, vars: seq<Binding>)
    requires WellFormed(tokens) && Dictionary(vars) && Plain(vars)
    ensures SubstituteAll(Render(tokens), vars) == SubstituteVars(Render(tokens), Lookup(vars))
       <==> !HidesFromPreview(tokens, Lookup(vars))
  {
    BackendFills(tokens, vars);
    FrontendFills(tokens, Lookup(vars));
    FewerOpens(tokens, Lookup(vars));
    if !HidesFromPreview(tokens, Lookup(vars)) {
      SameWhenNothingHides(tokens, Lookup(vars));
    }
  }

  /** With word-named variables the two programs always agree. */
  lemma {:induction false} AgreeOnWordVariables(tokens: seq<Token>, vars: seq<Binding>)
    requires WellFormed(tokens) && Dictionary(vars) && Plain(vars)
    requires forall i | 0 <= i < |vars| :: IsWord(vars[i].key)
    ensures SubstituteAll(Render(tokens), vars) == SubstituteVars(Render(tokens), Lookup(vars))
    ensures SubstituteVars(Render(tokens), Lookup(vars)) == Render(Fill(tokens, Lookup(vars)))
  {
    BackendAgreesWithPreview(tokens, vars);
    BackendFills(tokens, vars);
  }

  /** The issued certificate and the preview show the same for every text. */
  ghost predicate AlwaysPreviewed(vars: seq<Binding>) {
    forall tokens | WellFormed(tokens) ::
      SubstituteAll(Render(tokens), vars) == SubstituteVars(Render(tokens), Lookup(vars))
  }

  /**
   With values that hold placeholders: every preview is right if and only if each word-named
   variable survives the later keys and every other one ends as its own placeholder.
   */
  lemma AlwaysPreviewedIff(vars: seq<Binding>)
    requires Dictionary(vars) && RowValued(vars)
    ensures AlwaysPreviewed(vars) <==>
            forall i | 0 <= i < |vars| ::
              SubstituteAll(vars[i].value, vars[i + 1..])
              == if IsWord(vars[i].key) then vars[i].value else Pattern(vars[i].key)
  {
    hide SubstituteAll, SubstituteVars, RowText, Render, IsWord;
    var words := WordKeys(Lookup(vars));
    forall i | 0 <= i < |vars|
      ensures Shown(vars[i].key, words) == if IsWord(vars[i].key) then vars[i].value else Pattern(vars[i].key)
    {
      LookupFinds(vars, i);
    }
    forall tokens | WellFormed(tokens) ensures SubstituteVars(Render(tokens), Lookup(vars)) == Render(Fill(tokens, words)) {
      FrontendFills(tokens, Lookup(vars));
    }
    if AlwaysPreviewed(vars) {
      forall i | 0 <= i < |vars| ensures SubstituteAll(vars[i].value, vars[i + 1..]) == Shown(vars[i].key, words) {
        BackendShows(vars, i);
        OnePlaceholder(vars[i].key, words);
      }
    } else if forall i | 0 <= i < |vars| :: SubstituteAll(vars[i].value, vars[i + 1..]) == Shown(vars[i].key, words) {
      BackendReads(vars, words);
    }
  }

  lemma {:induction false} LookupFinds(vars: seq<Binding>, i: nat)
    requires Dictionary(vars) && i < |vars|
    ensures vars[i].key in Lookup(vars) && Lookup(vars)[vars[i].key] == vars[i].value
  {
    if i < |vars| - 1 {
      LookupFinds(vars[..|vars| - 1], i);
    }
  }

  /** No variable's value is changed by replacing any other key in it. */
  predicate Independent(vars: seq<Binding>) {
    forall a, b | a in vars && b in vars && a != b :: Replace(a.value, Pattern(b.key), b.value) == a.value
  }

  /** Every order of the variables gives every text the same result. */
  ghost predicate OrderNeverMatters(vars: seq<Binding>) {
    forall tokens, shuffled | WellFormed(tokens) && Dictionary(shuffled) && multiset(vars) == multiset(shuffled) ::
      SubstituteAll(Render(tokens), vars) == SubstituteAll(Render(tokens), shuffled)
  }

  lemma SameMembers(vars: seq<Binding>, shuffled: seq<Binding>)
    requires multiset(vars) == multiset(shuffled)
    ensures forall b :: b in vars <==> b in shuffled
    ensures RowValued(vars) ==> RowValued(shuffled)
    ensures Independent(vars) ==> Independent(shuffled)
  {
    hide RowText, Replace;
    assert forall b :: b in multiset(vars) <==> b in vars;
    assert forall b :: b in multiset(shuffled) <==> b in shuffled;
    if RowValued(vars) {
      forall i | 0 <= i < |shuffled| ensures BraceFree(shuffled[i].key) && RowText(shuffled[i].value) {
        assert shuffled[i] in vars;
      }
    }
  }

  lemma {:induction false} IndependentStays(vars: seq<Binding>, a: Binding, others: seq<Binding>)
    requires Independent(vars) && a in vars
    requires forall b | b in others :: b in vars && b != a
    ensures SubstituteAll(a.value, others) == a.value
  {
    hide Replace;
    if others != [] {
      assert others[|others| - 1] in others;
      IndependentStays(vars, a, others[..|others| - 1]);
    }
  }

  lemma IndependentIsStable(vars: seq<Binding>)
    requires Dictionary(vars) && Independent(vars)
    ensures Stable(vars)
  {
    hide SubstituteAll, Independent;
    forall i | 0 <= i < |vars| ensures SubstituteAll(vars[i].value, vars[i + 1..]) == vars[i].value {
      IndependentStays(vars, vars[i], vars[i + 1..]);
    }
  }

  lemma {:induction false} IndependentOrder(vars: seq<Binding>, shuffled: seq<Binding>)
    requires Dictionary(vars) && RowValued(vars) && Independent(vars)
    requires Dictionary(shuffled) && multiset(vars) == multiset(shuffled)
    ensures forall tokens | WellFormed(tokens) ::
              SubstituteAll(Render(tokens), vars) == SubstituteAll(Render(tokens), shuffled)
  {
    hide SubstituteAll, RowText, Render, Replace;
    SameMembers(vars, shuffled);
    IndependentIsStable(vars);
    IndependentIsStable(shuffled);
    AlwaysFillsIff(vars);
    AlwaysFillsIff(shuffled);
    hide Independent, Stable;
    SameEntries(vars, shuffled);
    SameEntries(shuffled, vars);
    assert Lookup(vars) == Lookup(shuffled);
  }

  lemma MoveLast(vars: seq<Binding>, i: nat) returns (moved: seq<Binding>)
    requires Dictionary(vars) && i < |vars|
    ensures moved == vars[..i] + vars[i + 1..] + [vars[i]]
    ensures Dictionary(moved) && multiset(vars) == multiset(moved)
  {
    moved := vars[..i] + vars[i + 1..] + [vars[i]];
    assert vars == vars[..i] + [vars[i]] + vars[i + 1..];
    assert forall j | 0 <= j < |moved| ::
        moved[j] == if j < i then vars[j] else if j < |vars| - 1 then vars[j + 1] else vars[i];
  }

  lemma SwapLast(vars: seq<Binding>, front: seq<Binding>, a: Binding, b: Binding)
    requires vars == front + [a, b] && Dictionary(vars)
    ensures Dictionary(front + [b, a]) && multiset(front + [b, a]) == multiset(vars)
  {
    var n := |front|;
    var moved := MoveLast(vars, n);
    assert vars[..n] == front && vars[n + 1..] == [b] && vars[n] == a;
    assert moved == front + [b, a];
  }

  lemma EndWith(vars: seq<Binding>, b: Binding) returns (moved: seq<Binding>, front: seq<Binding>)
    requires Dictionary(vars) && b in vars
    ensures Dictionary(moved) && multiset(vars) == multiset(moved) && moved == front + [b]
    ensures vars[|vars| - 1] != b ==> front != [] && front[|front| - 1] == vars[|vars| - 1]
  {
    var i :| 0 <= i < |vars| && vars[i] == b;
    moved := MoveLast(vars, i);
    front := vars[..i] + vars[i + 1..];
  }

  /** Orders that end in `a, b` and in `b, a`. */
  lemma TwoLast(vars: seq<Binding>, a: Binding, b: Binding) returns (front: seq<Binding>)
    requires Dictionary(vars) && a in vars && b in vars && a != b
    ensures Dictionary(front + [a, b]) && multiset(vars) == multiset(front + [a, b])
    ensures Dictionary(front + [b, a]) && multiset(vars) == multiset(front + [b, a])
  {
    hide Dictionary;
    var once, _ := EndWith(vars, a);
    assert once[|once| - 1] == a;
    assert b in multiset(once);
    var twice, rest := EndWith(once, b);
    front := rest[..|rest| - 1];
    assert twice == front + [a, b];
    SwapLast(twice, front, a, b);
  }

  lemma OrderSeesPairs(vars: seq<Binding>, a: Binding, b: Binding)
    requires Dictionary(vars) && RowValued(vars) && OrderNeverMatters(vars)
    requires a in vars && b in vars && a != b
    ensures Replace(a.value, Pattern(b.key), b.value) == a.value
  {
    hide RowText, Render, Dictionary, Replace, Independent, SubstituteAll;
    var front := TwoLast(vars, a, b);
    var n, ab, ba := |front|, front + [a, b], front + [b, a];
    SameMembers(vars, ab);
    SameMembers(vars, ba);
    BackendShows(ab, n);
    BackendShows(ba, n + 1);
    assert ab[n] == ba[n + 1] == a;
    assert ab[n + 1..] == [b] && ba[n + 2..] == [];
    FewVariables(a.value, b);
  }

  lemma {:induction false} FewVariables(text: string, b: Binding)
    ensures SubstituteAll(text, []) == text
    ensures SubstituteAll(text, [b]) == Replace(text, Pattern(b.key), b.value)
  {
    assert [b][..0] == [];
  }

  /** The order of the variables never matters if and only if no value is changed by another variable's key. */
  lemma OrderNeverMattersIff(vars: seq<Binding>)
    requires Dictionary(vars) && RowValued(vars)
    ensures OrderNeverMatters(vars) <==> Independent(vars)
  {
    hide SubstituteAll, RowText, Render, Replace;
    if Independent(vars) {
      forall tokens, shuffled | WellFormed(tokens) && Dictionary(shuffled) && multiset(vars) == multiset(shuffled)
        ensures SubstituteAll(Render(tokens), vars) == SubstituteAll(Render(tokens), shuffled)
      {
        IndependentOrder(vars, shuffled);
      }
    }
    if OrderNeverMatters(vars) {
      forall a, b | a in vars && b in vars && a != b ensures Replace(a.value, Pattern(b.key), b.value) == a.value {
        OrderSeesPairs(vars, a, b);
      }
    }
  }

  lemma PlainIsIndependent(vars: seq<Binding>)
    requires Plain(vars)
    ensures Independent(vars)
  {
    hide SubstituteAll, Replace;
    forall a, b | a in vars && b in vars && a != b ensures Replace(a.value, Pattern(b.key), b.value) == a.value {
      ReplaceSkips(a.value, "", b.key, b.value);
      ReplaceNothing(b.key, b.value);
      assert a.value + "" == a.value;
    }
  }

  /** With values that cannot begin a placeholder, reordering the dictionary never changes the result. */
  lemma {:induction false} OrderIsIrrelevant(tokens: seq<Token>, vars: seq<Binding>, shuffled: seq<Binding>)
    requires WellFormed(tokens) && Dictionary(vars) && Plain(vars) && Dictionary(shuffled)
    requires multiset(vars) == multiset(shuffled)
    ensures SubstituteAll(Render(tokens), vars) == SubstituteAll(Render(tokens), shuffled)
  {
    hide SubstituteAll, RowText, Render, Replace;
    PlainIsStable(vars);
    PlainIsIndependent(vars);
    IndependentOrder(vars, shuffled);
  }

  lemma {:induction false} SameEntries(vars: seq<Binding>, others: seq<Binding>)
    requires Dictionary(vars) && Dictionary(others)
    requires forall b | b in vars :: b in others
    ensures forall k | k in Lookup(vars) :: k in Lookup(others) && Lookup(others)[k] == Lookup(vars)[k]
  {
    forall k | k in Lookup(vars) ensures k in Lookup(others) && Lookup(others)[k] == Lookup(vars)[k] {
      var i :| 0 <= i < |vars| && vars[i] == Binding(k, Lookup(vars)[k]);
      assert vars[i] in others;
      var j :| 0 <= j < |others| && others[j] == vars[i];
      LookupFinds(others, j);
    }
  }

  /** A dictionary that is neither stable nor independent: one order expands the value again, the other does not. */
  lemma BracedValuesCascade()
    ensures var a, b := Binding("a", "{{b}}"), Binding("b", "x");
            && SubstituteAll("{{a}}", [a, b]) == "x"
            && SubstituteAll("{{a}}", [b, a]) == "{{b}}"
            && SubstituteVars("{{a}}", Lookup([a, b])) == "{{b}}"
  {
    var a, b := Binding("a", "{{b}}"), Binding("b", "x");
    var text := [Placeholder("a")];
    assert Render(text) == Pattern("a") + "" == "{{a}}";
    ReplacePlaceholder("a", "", "a", "{{b}}");
    ReplacePlaceholder("a", "", "b", "x");
    ReplacePlaceholder("b", "", "b", "x");
    assert Pattern("a") + "" == "{{a}}" && Pattern("b") + "" == "{{b}}";
    assert [a, b][..1] == [a] && [b, a][..1] == [b];
    assert [a][..0] == [] && [b][..0] == [];
    assert SubstituteAll("{{a}}", [a]) == "{{b}}";
    assert SubstituteAll("{{a}}", [b]) == "{{a}}";
    assert Lookup([a, b]) == map["a" := "{{b}}", "b" := "x"];
    PassPlaceholder("a", "", Lookup([a, b]));
  }

  /** The variables every certificate has: of the recipient, of the course, and of the certificate itself. */
  const RECIPIENT_NAMES: seq<string> := ["recipient_name", "recipient_first_name", "recipient_last_name", "recipient_id"]
  const COURSE_NAMES: seq<string> := ["course_name", "course_code", "duration", "score", "grade"]
  const DATE_NAMES: seq<string> := ["certificate_number", "issue_date", "expiry_date"]
  const ISSUER_NAMES: seq<string> := [
    "issuer_name", "issuer_title", "organization_name", "verification_url", "verification_code"]

  predicate BuiltIn(name: string) {
    name in RECIPIENT_NAMES || name in COURSE_NAMES || name in DATE_NAMES || name in ISSUER_NAMES
  }

  lemma RecipientNamesAreWords(name: string)
    requires name in RECIPIENT_NAMES
    ensures IsWord(name)
  {
  }

  lemma CourseNamesAreWords(name: string)
    requires name in COURSE_NAMES
    ensures IsWord(name)
  {
  }

  lemma DateNamesAreWords(name: string)
    requires name in DATE_NAMES
    ensures IsWord(name)
  {
  }

  lemma IssuerNamesAreWords(name: string)
    requires name in ISSUER_NAMES
    ensures IsWord(name)
  {
  }

  lemma BuiltInsAreWords(name: string)
    requires BuiltIn(name)
    ensures IsWord(name)
  {
    hide IsWord;
    if name in RECIPIENT_NAMES {
      RecipientNamesAreWords(name);
    } else if name in COURSE_NAMES {
      CourseNamesAreWords(name);
    } else if name in DATE_NAMES {
      DateNamesAreWords(name);
    } else {
      IssuerNamesAreWords(name);
    }
  }

  /** The preview is right for every text that uses built-in variables only. */
  lemma {:induction false} BuiltInsAgree(tokens: seq<Token>, vars: seq<Binding>)
    requires WellFormed(tokens) && Dictionary(vars) && Plain(vars)
    requires forall t | t in tokens && t.Placeholder? :: BuiltIn(t.name)
    ensures SubstituteAll(Render(tokens), vars) == SubstituteVars(Render(tokens), Lookup(vars))
  {
    hide SubstituteAll, SubstituteVars, Render, IsWord, BuiltIn;
    BackendAgreesWithPreview(tokens, vars);
    forall i | 0 <= i < |tokens| && tokens[i].Placeholder? ensures IsWord(tokens[i].name) {
      assert tokens[i] in tokens;
      BuiltInsAreWords(tokens[i].name);
    }
  }

  /** The characters of a word. */
  lemma WordTable(c: char)
    ensures IsWordChar(c) <==>
            || c in "ABCDEFGHIJKLMNOPQRSTUVWXYZ" || c in "abcdefghijklmnopqrstuvwxyz" || c in "0123456789_"
  {
  }

  /** A name with a space, a dash or a letter beyond ASCII is never previewed. */
  lemma OtherNamesAreHidden(name: string, i: nat)
    requires i < |name| && (name[i] in {' ', '-', '.'} || name[i] >= '\U{0080}')
    ensures !IsWord(name)
  {
    assert !IsWordChar(name[i]);
  }

  // ------------------------------------------------------------------ canvas

  function SubstituteElement(e: Element, vars: seq<Binding>): Element {
    match e.content
    case None => e
    case Some(text) => e.(content := Some(SubstituteAll(text, vars)))
  }

  /** Fills a copy of the canvas in place; the stored canvas is left as it was. */
  method SubstituteCanvas(canvas: array<Element>, vars: seq<Binding>) returns (data: array<Element>)
    ensures fresh(data) && data.Length == canvas.Length
    ensures canvas[..] == old(canvas[..])
    ensures forall i | 0 <= i < canvas.Length ::
              && data[i].id == canvas[i].id
              && (canvas[i].content.None? ==> data[i].content.None?)
              && (canvas[i].content.Some? ==> data[i].content == Some(SubstituteAll(canvas[i].content.value, vars)))
  {
    data := new Element[canvas.Length](i requires 0 <= i < canvas.Length reads canvas => canvas[i]);
    for i := 0 to data.Length
      invariant forall j | 0 <= j < i :: data[j] == SubstituteElement(canvas[j], vars)
      invariant forall j | i <= j < data.Length :: data[j] == canvas[j]
    {
      match data[i].content
      case Some(text) =>
        var filled := Substitute(text, vars);
        data[i] := data[i].(content := Some(filled));
      case None =>
    }
  }
}
