/** Filling the placeholders of a plugin action in the mobile app: one `replaceAll` after another. */
module Template {

  datatype RawRule = Rule(token: string, value: string)

  /** A token to look for and the text to put in its place. */
  type Rule = r: RawRule | r.token != [] witness Rule("{}", "")

  // ---------------------------------------------------------------- replaceAll

  /** The replacement text, in which `$$`, `$&`, `` $` `` and `$'` are special. */
  function Expand(value: string, token: string, before: string, after: string): string {
    if value == [] then []
    else if value[0] == '$' && |value| >= 2 && value[1] == '$' then "$" + Expand(value[2..], token, before, after)
    else if value[0] == '$' && |value| >= 2 && value[1] == '&' then token + Expand(value[2..], token, before, after)
    else if value[0] == '$' && |value| >= 2 && value[1] == '`' then before + Expand(value[2..], token, before, after)
    else if value[0] == '$' && |value| >= 2 && value[1] == '\'' then after + Expand(value[2..], token, before, after)
    else [value[0]] + Expand(value[1..], token, before, after)
  }

  /** `(before + s).replaceAll(token, value)` from the position where s begins. */
  function ReplaceFrom(before: string, s: string, r: Rule): string
    decreases |s|
  {
    if s == [] then []
    else if r.token <= s then
      var after := s[|r.token|..];
      Expand(r.value, r.token, before, after) + ReplaceFrom(before + r.token, after, r)
    else [s[0]] + ReplaceFrom(before + [s[0]], s[1..], r)
  }

  /** The reduce over the replacements. */
  function Resolve(rules: seq<Rule>, s: string): string
  {
    if rules == [] then s else Resolve(rules[1..], ReplaceFrom("", s, rules[0]))
  }

  /** The placeholders of a plugin pane, in the source's order. */
  function PaneRules(currentPath: string, localId: string, pluginId: string, pluginName: string): seq<Rule> {
    [Rule("{actionPath}", currentPath), Rule("{contextPath}", currentPath), Rule("{currentPath}", currentPath),
     Rule("{paneId}", localId), Rule("{pluginId}", pluginId), Rule("{pluginName}", pluginName)]
  }

  // ---------------------------------------------------------------- the specification

  /** The rule whose token stands at the front, if any. */
  function RuleAt(rules: seq<Rule>, s: string): (found: seq<Rule>)
    ensures |found| <= 1 && (found != [] ==> found[0] in rules && found[0].token <= s)
    ensures found == [] ==> forall r :: r in rules ==> !(r.token <= s)
  {
    if rules == [] then [] else if rules[0].token <= s then [rules[0]] else RuleAt(rules[1..], s)
  }

  /** Every placeholder of the template replaced at once, left to right; replaced text is not looked at again. */
  function Simultaneous(rules: seq<Rule>, s: string): string
    decreases |s|
  {
    if s == [] then []
    else
      var found := RuleAt(rules, s);
      if found != [] then found[0].value + Simultaneous(rules, s[|found[0].token|..])
      else [s[0]] + Simultaneous(rules, s[1..])
  }

  predicate BraceFree(s: string) {
    '{' !in s && '}' !in s
  }

  /** A name in braces. */
  predicate IsToken(t: string) {
    |t| >= 2 && t[0] == '{' && t[|t| - 1] == '}' && BraceFree(t[1..|t| - 1])
  }

  /** No `{` that is opened inside an unclosed `{` is ever closed. */
  predicate Flat(s: string, inside: bool) {
    if s == [] then true
    else if s[0] == '{' then if inside then '}' !in s else Flat(s[1..], true)
    else Flat(s[1..], inside && s[0] != '}')
  }

  /** Names in braces, all different. */
  predicate Tokens(rules: seq<Rule>) {
    && (forall r :: r in rules ==> IsToken(r.token))
    && forall i, j :: 0 <= i < j < |rules| ==> rules[i].token != rules[j].token
  }

  predicate StartsPattern(v: string) {
    |v| >= 2 && v[0] == '$' && v[1] in "$&`'"
  }

  /** `$` does not stand directly before `$`, `&`, a backtick or `'`. */
  predicate NoDollarPattern(v: string) {
    v == [] || (!StartsPattern(v) && NoDollarPattern(v[1..]))
  }

  /** The token is not in the value, and the value does not end with a beginning of it. */
  predicate KeepsClear(v: string, token: string) {
    v == [] || (!(token <= v) && !(v <= token) && KeepsClear(v[1..], token))
  }

  /** No value has a dollar pattern, and each keeps clear of the tokens that are replaced after it. */
  predicate Safe(rules: seq<Rule>) {
    && (forall r :: r in rules ==> NoDollarPattern(r.value))
    && forall i, j :: 0 <= i < j < |rules| ==> KeepsClear(rules[i].value, rules[j].token)
  }

  /** As `Safe`, but a rule that puts its own token back may follow any value. */
  predicate SafeOrOwn(rules: seq<Rule>) {
    && (forall r :: r in rules ==> NoDollarPattern(r.value))
    && forall i, j :: 0 <= i < j < |rules| ==>
         KeepsClear(rules[i].value, rules[j].token) || rules[j].value == rules[j].token
  }

  predicate Harmless(v: string) {
    '{' !in v && NoDollarPattern(v)
  }

  // ---------------------------------------------------------------- plain replacement

  /** `replaceAll` with a value in which no `$` is special. */
  function Plain(s: string, r: Rule): string
    decreases |s|
  {
    if s == [] then []
    else if r.token <= s then r.value + Plain(s[|r.token|..], r)
    else [s[0]] + Plain(s[1..], r)
  }

  lemma PlainAtToken(r: Rule, rest: string)
    ensures Plain(r.token + rest, r) == r.value + Plain(rest, r)
  {
    assert (r.token + rest)[|r.token|..] == rest;
  }

  lemma PlainStep(s: string, r: Rule)
    requires s != [] && !(r.token <= s)
    ensures Plain(s, r) == [s[0]] + Plain(s[1..], r)
  {
  }

  lemma {:induction false} ExpandPlain(value: string, token: string, before: string, after: string)
    requires NoDollarPattern(value)
    ensures Expand(value, token, before, after) == value
  {
    if value != [] {
      ExpandPlain(value[1..], token, before, after);
    }
  }

  lemma {:induction false} ReplacePlain(before: string, s: string, r: Rule)
    requires NoDollarPattern(r.value)
    ensures ReplaceFrom(before, s, r) == Plain(s, r)
    decreases |s|
  {
    if s != [] {
      hide NoDollarPattern, Expand;
      if r.token <= s {
        ExpandPlain(r.value, r.token, before, s[|r.token|..]);
        ReplacePlain(before + r.token, s[|r.token|..], r);
      } else {
        ReplacePlain(before + [s[0]], s[1..], r);
      }
    }
  }

  lemma OneIsPrefix(t: string, u: string, s: string)
    ensures t <= u + s ==> t <= u || u <= t
  {
    if |t| <= |u| {
      assert t <= u + s ==> t == (u + s)[..|t|] == u[..|t|];
    } else {
      assert t <= u + s ==> t[..|u|] == (u + s)[..|u|] == u;
    }
  }

  /** A value that keeps clear of a token stays as it is, whatever follows. */
  lemma {:induction false} PlainSkips(u: string, s: string, r: Rule)
    requires KeepsClear(u, r.token)
    ensures Plain(u + s, r) == u + Plain(s, r)
  {
    if u == [] {
      assert u + s == s;
    } else {
      OneIsPrefix(r.token, u, s);
      assert (u + s)[1..] == u[1..] + s;
      PlainSkips(u[1..], s, r);
    }
  }

  lemma {:induction false} BracelessKeepsClear(u: string, token: string)
    requires IsToken(token) && '{' !in u
    ensures KeepsClear(u, token)
  {
    if u != [] {
      assert u[0] in u && forall c :: c in u[1..] ==> c in u;
      BracelessKeepsClear(u[1..], token);
    }
  }

  lemma NoRuleOutsideBrace(rules: seq<Rule>, s: string)
    requires Tokens(rules) && s != [] && s[0] != '{'
    ensures RuleAt(rules, s) == []
  {
    assert forall r :: r in rules ==> IsToken(r.token) && r.token[0] == '{';
  }

  lemma {:induction false} SimultaneousSkips(u: string, s: string, rules: seq<Rule>)
    requires Tokens(rules) && '{' !in u
    ensures Simultaneous(rules, u + s) == u + Simultaneous(rules, s)
  {
    hide Tokens, RuleAt;
    if u == [] {
      assert u + s == s;
    } else {
      assert u[0] in u && (u + s)[1..] == u[1..] + s;
      NoRuleOutsideBrace(rules, u + s);
      SimultaneousSkips(u[1..], s, rules);
    }
  }

  /** Without a closing brace there is no token. */
  lemma {:induction false} UnclosedStays(s: string, rules: seq<Rule>)
    requires Tokens(rules) && '}' !in s
    ensures Simultaneous(rules, s) == s
  {
    if s != [] {
      assert forall r :: r in rules ==> IsToken(r.token) && r.token[|r.token| - 1] == '}';
      assert RuleAt(rules, s) == [];
      UnclosedStays(s[1..], rules);
    }
  }

  lemma {:induction false} FlatAfterText(u: string, s: string, inside: bool)
    requires BraceFree(u)
    ensures Flat(u + s, inside) == Flat(s, inside)
  {
    if u == [] {
      assert u + s == s;
    } else {
      assert u[0] in u && (u + s)[1..] == u[1..] + s && forall c :: c in u[1..] ==> c in u;
      FlatAfterText(u[1..], s, inside);
    }
  }

  lemma FlatAfterToken(t: string, s: string)
    requires IsToken(t)
    ensures Flat(t + s, false) == Flat(s, false)
  {
    var name := t[1..|t| - 1];
    assert (t + s)[1..] == name + ("}" + s);
    FlatAfterText(name, "}" + s, true);
    assert ("}" + s)[1..] == s;
  }

  lemma {:induction false} BracelessIsFlat(s: string)
    requires '{' !in s
    ensures Flat(s, false)
  {
    if s != [] {
      assert s[0] in s && forall c :: c in s[1..] ==> c in s;
      BracelessIsFlat(s[1..]);
    }
  }

  /** Two tokens at the same place are the same. */
  lemma TokensDoNotNest(t: string, u: string, s: string)
    requires IsToken(t) && IsToken(u) && t <= s && u <= s
    ensures t == u
  {
    if |t| != |u| {
      assert false;
    }
  }

  lemma HeadAndTail(t: string, s: string)
    requires t != []
    ensures (t + s)[0] == t[0] && (t + s)[1..] == t[1..] + s && [t[0]] + (t[1..] + s) == t + s
  {
  }

  /** The text of a token behind its first brace. */
  lemma TokenTail(t: string)
    requires IsToken(t)
    ensures '{' !in t[1..] && t[1..][..|t| - 2] == t[1..|t| - 1]
  {
    assert t[1..] == t[1..|t| - 1] + "}";
  }

  // ---------------------------------------------------------------- one more rule

  lemma {:induction false} RuleAtMore(rules: seq<Rule>, r: Rule, s: string)
    ensures RuleAt(rules + [r], s) ==
            if RuleAt(rules, s) != [] then RuleAt(rules, s) else if r.token <= s then [r] else []
  {
    if rules != [] {
      assert (rules + [r])[1..] == rules[1..] + [r];
      RuleAtMore(rules[1..], r, s);
    }
  }

  lemma SimultaneousStep(rules: seq<Rule>, s: string)
    requires s != [] && RuleAt(rules, s) == []
    ensures Simultaneous(rules, s) == [s[0]] + Simultaneous(rules, s[1..])
  {
  }

  lemma PrefixBehindHead(u: string, c: char, s: string)
    requires u != [] && u <= [c] + s
    ensures u[0] == c && u[1..] <= s
  {
    assert u[1..] == ([c] + s)[..|u|][1..] == s[..|u| - 1];
  }

  /** The end of a token: a name, then the closing brace. */
  predicate IsTokenEnd(u: string) {
    u != [] && u[|u| - 1] == '}' && BraceFree(u[..|u| - 1])
  }

  lemma TokenEndTail(u: string)
    requires IsTokenEnd(u) && |u| > 1
    ensures IsTokenEnd(u[1..]) && u[0] != '{' && u[0] != '}'
  {
    assert u[0] in u[..|u| - 1] && u[..|u| - 1] == [u[0]] + u[1..][..|u| - 2];
  }

  /** Inside a brace, replacing can not complete a token that was not there. */
  lemma {:induction false} NoNewToken(u: string, s: string, rules: seq<Rule>)
    requires Tokens(rules) && Flat(s, true) && IsTokenEnd(u) && u <= Simultaneous(rules, s)
    ensures u <= s
  {
    if s[0] == '{' {
      UnclosedStays(s, rules);
    } else {
      NoRuleOutsideBrace(rules, s);
      SimultaneousStep(rules, s);
      hide Tokens, RuleAt, Simultaneous;
      PrefixBehindHead(u, s[0], Simultaneous(rules, s[1..]));
      if |u| > 1 {
        TokenEndTail(u);
        NoNewToken(u[1..], s[1..], rules);
        assert u == [u[0]] + u[1..];
      }
    }
  }

  lemma NoNewTokenAt(s: string, rules: seq<Rule>, t: string)
    requires Tokens(rules) && IsToken(t) && s != [] && Flat(s[1..], s[0] == '{')
    requires t <= [s[0]] + Simultaneous(rules, s[1..])
    ensures t <= s
  {
    assert t[1..] <= Simultaneous(rules, s[1..]);
    TokenTail(t);
    NoNewToken(t[1..], s[1..], rules);
  }

  /** A token that is not replaced yet stays whole. */
  lemma TokenStays(t: string, s: string, rules: seq<Rule>)
    requires Tokens(rules) && IsToken(t) && forall r :: r in rules ==> r.token != t
    ensures RuleAt(rules, t + s) == [] && Simultaneous(rules, t + s) == t + Simultaneous(rules, s)
  {
    forall r | r in rules ensures !(r.token <= t + s) {
      if r.token <= t + s {
        TokensDoNotNest(r.token, t, t + s);
      }
    }
    TokenTail(t);
    hide Tokens, IsToken;
    HeadAndTail(t, s);
    assert Simultaneous(rules, t + s) == [t[0]] + Simultaneous(rules, t[1..] + s);
    hide Simultaneous, RuleAt;
    SimultaneousSkips(t[1..], s, rules);
    HeadAndTail(t, Simultaneous(rules, s));
  }

  /** Replacing one more token in the text where the earlier ones are replaced is replacing all at once. */
  lemma {:induction false} OneMoreRule(s: string, rules: seq<Rule>, r: Rule, inside: bool)
    requires Tokens(rules + [r]) && Tokens(rules) && IsToken(r.token) && Flat(s, inside)
    requires forall d :: d in rules ==> d.token != r.token && KeepsClear(d.value, r.token)
    ensures Plain(Simultaneous(rules, s), r) == Simultaneous(rules + [r], s)
    decreases |s|
  {
    if s == [] {
    } else if s[0] == '{' && inside {
      UnclosedStays(s, rules);
      UnclosedStays(s, rules + [r]);
      UnclosedStays(s, [r]);
      PlainIsSimultaneous(s, r);
    } else {
      RuleAtMore(rules, r, s);
      var found := RuleAt(rules, s);
      if found != [] {
        var rest := s[|found[0].token|..];
        assert s == found[0].token + rest && IsToken(found[0].token);
        FlatAfterToken(found[0].token, rest);
        OneMoreRule(rest, rules, r, false);
        hide Flat, Tokens, IsToken, KeepsClear, RuleAt;
        PlainSkips(found[0].value, Simultaneous(rules, rest), r);
      } else if r.token <= s {
        var rest := s[|r.token|..];
        assert s == r.token + rest;
        FlatAfterToken(r.token, rest);
        OneMoreRule(rest, rules, r, false);
        TokenStays(r.token, rest, rules);
        hide Flat, Tokens, IsToken, KeepsClear, RuleAt;
        PlainAtToken(r, Simultaneous(rules, rest));
      } else {
        OneMoreRule(s[1..], rules, r, s[0] == '{' || (inside && s[0] != '}'));
        StepOver(s, rules, r);
        hide Flat, Tokens, IsToken, KeepsClear, RuleAt;
      }
    }
  }

  lemma StepOver(s: string, rules: seq<Rule>, r: Rule)
    requires Tokens(rules) && IsToken(r.token) && s != [] && (s[0] == '{' ==> Flat(s[1..], true))
    requires RuleAt(rules, s) == [] && !(r.token <= s)
    ensures Plain(Simultaneous(rules, s), r) == [s[0]] + Plain(Simultaneous(rules, s[1..]), r)
  {
    var replaced := [s[0]] + Simultaneous(rules, s[1..]);
    assert replaced[1..] == Simultaneous(rules, s[1..]);
    if s[0] == '{' && r.token <= replaced {
      NoNewTokenAt(s, rules, r.token);
    }
  }

  lemma {:induction false} PlainIsSimultaneous(s: string, r: Rule)
    ensures Plain(s, r) == Simultaneous([r], s)
    decreases |s|
  {
    if s != [] {
      assert [r][1..] == [] && RuleAt([r], s) == if r.token <= s then [r] else [];
      PlainIsSimultaneous(if r.token <= s then s[|r.token|..] else s[1..], r);
    }
  }

  lemma {:induction false} NothingToReplace(s: string)
    ensures Simultaneous([], s) == s
  {
    if s != [] {
      NothingToReplace(s[1..]);
    }
  }

  lemma {:induction false} ResolveInTwo(rules: seq<Rule>, more: seq<Rule>, s: string)
    ensures Resolve(rules + more, s) == Resolve(more, Resolve(rules, s))
  {
    if rules == [] {
      assert rules + more == more;
    } else {
      assert (rules + more)[1..] == rules[1..] + more;
      ResolveInTwo(rules[1..], more, ReplaceFrom("", s, rules[0]));
    }
  }

  lemma ResolveOne(r: Rule, s: string)
    ensures Resolve([r], s) == ReplaceFrom("", s, r)
  {
    assert [r][1..] == [];
  }

  lemma {:induction false} OwnTokenStays(s: string, r: Rule)
    requires r.value == r.token
    ensures Plain(s, r) == s
    decreases |s|
  {
    if s != [] {
      if r.token <= s {
        OwnTokenStays(s[|r.token|..], r);
        assert s == r.token + s[|r.token|..];
      } else {
        OwnTokenStays(s[1..], r);
      }
    }
  }

  lemma {:induction false} OwnTokenAdded(s: string, rules: seq<Rule>, own: Rule)
    requires Tokens(rules) && IsToken(own.token) && own.value == own.token
    requires forall r :: r in rules ==> r.token != own.token
    ensures Simultaneous(rules + [own], s) == Simultaneous(rules, s)
    decreases |s|
  {
    if s != [] {
      RuleAtMore(rules, own, s);
      hide Tokens, IsToken;
      var found := RuleAt(rules, s);
      if found != [] {
        OwnTokenAdded(s[|found[0].token|..], rules, own);
      } else if own.token <= s {
        assert s == own.token + s[|own.token|..];
        TokenStays(own.token, s[|own.token|..], rules);
        OwnTokenAdded(s[|own.token|..], rules, own);
      } else {
        OwnTokenAdded(s[1..], rules, own);
      }
    }
  }

  lemma WithoutLast(rules: seq<Rule>)
    requires Tokens(rules) && SafeOrOwn(rules) && rules != []
    ensures var before, r := rules[..|rules| - 1], rules[|rules| - 1];
            && rules == before + [r] && Tokens(before) && SafeOrOwn(before)
            && IsToken(r.token) && NoDollarPattern(r.value)
            && forall d :: d in before ==>
                 d.token != r.token && (KeepsClear(d.value, r.token) || r.value == r.token)
  {
    var before, r := rules[..|rules| - 1], rules[|rules| - 1];
    assert rules == before + [r] && r in rules && forall d :: d in before ==> d in rules;
    hide IsToken, NoDollarPattern, KeepsClear;
  }

  /** One `replaceAll` after another is one simultaneous substitution, for any flat template and any rules that
      are safe or put their own token back. */
  lemma {:induction false} SequentialIsSimultaneous(rules: seq<Rule>, template: string)
    requires Tokens(rules) && SafeOrOwn(rules) && Flat(template, false)
    ensures Resolve(rules, template) == Simultaneous(rules, template)
  {
    if rules == [] {
      NothingToReplace(template);
    } else {
      var before, r := rules[..|rules| - 1], rules[|rules| - 1];
      WithoutLast(rules);
      hide SafeOrOwn, KeepsClear, NoDollarPattern, IsToken, Flat;
      SequentialIsSimultaneous(before, template);
      ResolveInTwo(before, [r], template);
      ResolveOne(r, Resolve(before, template));
      ReplacePlain("", Resolve(before, template), r);
      if r.value == r.token {
        OwnTokenStays(Resolve(before, template), r);
        OwnTokenAdded(template, before, r);
      } else {
        OneMoreRule(template, before, r, false);
      }
    }
  }

  // ---------------------------------------------------------------- what other rules and templates do

  predicate Occurs(token: string, s: string) {
    token <= s || (s != [] && Occurs(token, s[1..]))
  }

  lemma {:induction false} OccursBehind(token: string, u: string, s: string)
    requires Occurs(token, s)
    ensures Occurs(token, u + s)
  {
    if u == [] {
      assert u + s == s;
    } else {
      assert (u + s)[1..] == u[1..] + s;
      OccursBehind(token, u[1..], s);
    }
  }

  /** A token that ends up behind braceless text must have been there. */
  lemma {:induction false} NotInText(u: string, s: string, token: string)
    requires IsToken(token) && '{' !in u && !Occurs(token, s)
    ensures !Occurs(token, u + s)
  {
    if u == [] {
      assert u + s == s;
    } else {
      assert u[0] in u && (u + s)[1..] == u[1..] + s && forall c :: c in u[1..] ==> c in u;
      NotInText(u[1..], s, token);
    }
  }

  lemma NotInOtherToken(t: string, s: string, token: string)
    requires IsToken(token) && IsToken(t) && t != token && !Occurs(token, s)
    ensures !Occurs(token, t + s)
  {
    TokenTail(t);
    assert (t + s)[1..] == t[1..] + s;
    NotInText(t[1..], s, token);
    if token <= t + s {
      TokensDoNotNest(token, t, t + s);
    }
  }

  lemma {:induction false} NotReplaced(before: string, s: string, r: Rule)
    requires !Occurs(r.token, s)
    ensures ReplaceFrom(before, s, r) == s
    decreases |s|
  {
    if s != [] {
      NotReplaced(before + [s[0]], s[1..], r);
    }
  }

  lemma {:induction false} NothingOccurs(rules: seq<Rule>, s: string)
    requires forall r :: r in rules ==> !Occurs(r.token, s)
    ensures Resolve(rules, s) == s
  {
    if rules != [] {
      NotReplaced("", s, rules[0]);
      NothingOccurs(rules[1..], s);
    }
  }

  /** With values that are longer by m, replacing makes the text longer by m, or changes nothing. */
  lemma {:induction false} PlainGrows(s: string, r: Rule, m: nat)
    requires |r.value| >= |r.token| + m
    ensures |Plain(s, r)| >= |s| && (Occurs(r.token, s) ==> |Plain(s, r)| >= |s| + m)
    ensures !Occurs(r.token, s) ==> Plain(s, r) == s
    decreases |s|
  {
    if s != [] {
      PlainGrows(if r.token <= s then s[|r.token|..] else s[1..], r, m);
    }
  }

  lemma {:induction false} ResolveGrows(rules: seq<Rule>, s: string, m: nat)
    requires forall r :: r in rules ==> NoDollarPattern(r.value) && |r.value| >= |r.token| + m
    ensures |Resolve(rules, s)| >= |s|
    ensures if exists r :: r in rules && Occurs(r.token, s) then |Resolve(rules, s)| >= |s| + m
            else Resolve(rules, s) == s
  {
    if rules != [] {
      assert rules[0] in rules && forall r :: r in rules <==> r == rules[0] || r in rules[1..];
      ReplacePlain("", s, rules[0]);
      PlainGrows(s, rules[0], m);
      ResolveGrows(rules[1..], Plain(s, rules[0]), m);
    }
  }

  function Opens(s: string): nat {
    if s == [] then 0 else (if s[0] == '{' then 1 else 0) + Opens(s[1..])
  }

  lemma {:induction false} OpensAdds(s: string, t: string)
    ensures Opens(s + t) == Opens(s) + Opens(t)
  {
    if s == [] {
      assert s + t == t;
    } else {
      assert (s + t)[1..] == s[1..] + t;
      OpensAdds(s[1..], t);
    }
  }

  /** What a dollar pattern stands for where the template is the bare token. */
  function Meaning(c: char, token: string): string {
    if c == '$' then "$" else if c == '&' then token else ""
  }

  lemma ExpandPattern(v: string, token: string)
    requires StartsPattern(v)
    ensures Expand(v, token, "", "") == Meaning(v[1], token) + Expand(v[2..], token, "", "")
  {
  }

  /** A dollar pattern adds a brace or makes the value shorter. */
  lemma {:induction false} ExpandOpensOrShrinks(v: string, token: string)
    requires IsToken(token)
    ensures var e := Expand(v, token, "", "");
            || Opens(e) > Opens(v)
            || (Opens(e) == Opens(v) && |e| <= |v| && (!NoDollarPattern(v) ==> |e| < |v|))
  {
    if v != [] {
      if StartsPattern(v) {
        var rest := Expand(v[2..], token, "", "");
        ExpandPattern(v, token);
        ExpandOpensOrShrinks(v[2..], token);
        assert v[1..][1..] == v[2..] && Opens(v) == Opens(v[2..]);
        assert Opens(token) > 0 && Opens("$") == 0;
        OpensAdds(Meaning(v[1], token), rest);
        hide Expand, IsToken;
      } else {
        var rest := Expand(v[1..], token, "", "");
        ExpandOpensOrShrinks(v[1..], token);
        assert Expand(v, token, "", "") == [v[0]] + rest && ([v[0]] + rest)[1..] == rest;
        hide Expand, IsToken;
      }
    }
  }

  /** Expanding a value, where the template is the bare token, changes it exactly when it has a dollar pattern. */
  lemma ExpandFixesExactly(v: string, token: string)
    requires IsToken(token)
    ensures Expand(v, token, "", "") == v <==> NoDollarPattern(v)
  {
    ExpandOpensOrShrinks(v, token);
    if NoDollarPattern(v) {
      ExpandPlain(v, token, "", "");
    }
  }

  /** Braces in an expanded value come from its own token. */
  lemma {:induction false} ExpandHasNoOther(v: string, token: string, other: string)
    requires IsToken(token) && IsToken(other) && token != other && '{' !in v
    ensures !Occurs(other, Expand(v, token, "", ""))
  {
    if v != [] {
      assert v[0] in v && forall i :: 0 <= i < |v| ==> v[i] in v;
      if StartsPattern(v) {
        var rest := Expand(v[2..], token, "", "");
        ExpandPattern(v, token);
        ExpandHasNoOther(v[2..], token, other);
        hide Expand, Occurs;
        NotInText("$", rest, other);
        NotInOtherToken(token, rest, other);
        assert "" + rest == rest;
      } else {
        ExpandHasNoOther(v[1..], token, other);
        NotInText([v[0]], Expand(v[1..], token, "", ""), other);
      }
    }
  }

  lemma NotInEmpty(text: string, token: string)
    requires IsToken(token) && '{' !in text
    ensures !Occurs(token, text)
  {
    NotInText(text, "", token);
    assert text + "" == text;
  }

  lemma SimultaneousOfText(rules: seq<Rule>, text: string)
    requires Tokens(rules) && '{' !in text
    ensures Simultaneous(rules, text) == text
  {
    SimultaneousSkips(text, "", rules);
    assert text + "" == text;
  }

  /** Where one of the rules' tokens stands, that rule is found. */
  lemma {:induction false} RuleAtToken(rules: seq<Rule>, r: Rule, rest: string)
    requires Tokens(rules) && r in rules
    ensures RuleAt(rules, r.token + rest) == [r]
  {
    var s := r.token + rest;
    assert IsToken(r.token) && IsToken(rules[0].token) && r.token <= s;
    if rules[0].token <= s {
      TokensDoNotNest(rules[0].token, r.token, s);
      assert rules[0] == r by {
        var i :| 0 <= i < |rules| && rules[i] == r;
      }
    } else {
      assert forall q :: q in rules[1..] ==> q in rules;
      RuleAtToken(rules[1..], r, rest);
    }
  }

  lemma OthersDoNotOccur(rules: seq<Rule>, k: nat, text: string)
    requires Tokens(rules) && k < |rules| && '{' !in text
    ensures !Occurs(rules[k].token, text)
    ensures forall q :: q in rules[..k] ==> !Occurs(q.token, rules[k].token + text)
  {
    assert rules[k] in rules;
    NotInEmpty(text, rules[k].token);
    forall q | q in rules[..k] ensures !Occurs(q.token, rules[k].token + text) {
      assert q in rules;
      NotInEmpty(text, q.token);
      NotInOtherToken(rules[k].token, text, q.token);
    }
  }

  lemma SimultaneousOnToken(rules: seq<Rule>, r: Rule, text: string)
    requires Tokens(rules) && r in rules && '{' !in text
    ensures Simultaneous(rules, r.token + text) == r.value + text
  {
    RuleAtToken(rules, r, text);
    SimultaneousOfText(rules, text);
    hide Tokens, RuleAt;
    assert (r.token + text)[|r.token|..] == text;
  }

  lemma ReplaceOnToken(r: Rule, text: string)
    requires !Occurs(r.token, text)
    ensures ReplaceFrom("", r.token + text, r) == Expand(r.value, r.token, "", text) + text
  {
    hide Occurs, Expand;
    assert (r.token + text)[|r.token|..] == text && "" + r.token == r.token;
    NotReplaced(r.token, text, r);
  }

  lemma ResolveInParts(rules: seq<Rule>, k: nat, s: string)
    requires k < |rules|
    ensures Resolve(rules, s) == Resolve(rules[k + 1..], ReplaceFrom("", Resolve(rules[..k], s), rules[k]))
  {
    hide ReplaceFrom;
    ResolveInTwo(rules[..k], rules[k..], s);
    assert rules == rules[..k] + rules[k..] && rules[k..][0] == rules[k] && rules[k..][1..] == rules[k + 1..];
  }

  /** The bare token of rule k with braceless text behind it: one rule acts at first, and only it is meant to. */
  lemma OnToken(rules: seq<Rule>, k: nat, text: string)
    requires Tokens(rules) && k < |rules| && '{' !in text
    ensures var r := rules[k];
            && Flat(r.token + text, false)
            && Simultaneous(rules, r.token + text) == r.value + text
            && Resolve(rules, r.token + text) == Resolve(rules[k + 1..], Expand(r.value, r.token, "", text) + text)
  {
    var r := rules[k];
    assert r in rules && IsToken(r.token);
    hide *;
    FlatAfterToken(r.token, text);
    BracelessIsFlat(text);
    SimultaneousOnToken(rules, r, text);
    OthersDoNotOccur(rules, k, text);
    NothingOccurs(rules[..k], r.token + text);
    ReplaceOnToken(r, text);
    ResolveInParts(rules, k, r.token + text);
  }

  // ---------------------------------------------------------------- the exact conditions

  ghost predicate SameOnFlatTemplates(rules: seq<Rule>) {
    forall template :: Flat(template, false) ==> Resolve(rules, template) == Simultaneous(rules, template)
  }

  /** For values without `{`, the order makes no difference on any flat template exactly when no value has a
      dollar pattern. */
  lemma ValuesExactly(rules: seq<Rule>)
    requires Tokens(rules) && forall r :: r in rules ==> '{' !in r.value
    ensures SameOnFlatTemplates(rules) <==> forall r :: r in rules ==> NoDollarPattern(r.value)
  {
    if forall r :: r in rules ==> NoDollarPattern(r.value) {
      forall i, j | 0 <= i < j < |rules| ensures KeepsClear(rules[i].value, rules[j].token) {
        BracelessKeepsClear(rules[i].value, rules[j].token);
      }
      forall template | Flat(template, false) ensures Resolve(rules, template) == Simultaneous(rules, template) {
        SequentialIsSimultaneous(rules, template);
      }
    } else {
      var k :| 0 <= k < |rules| && !NoDollarPattern(rules[k].value);
      DollarShows(rules, k);
    }
  }

  lemma DollarShows(rules: seq<Rule>, k: nat)
    requires Tokens(rules) && k < |rules| && '{' !in rules[k].value && !NoDollarPattern(rules[k].value)
    ensures !SameOnFlatTemplates(rules)
  {
    var r := rules[k];
    var expanded := Expand(r.value, r.token, "", "");
    OnToken(rules, k, "");
    ExpandFixesExactly(r.value, r.token);
    forall q | q in rules[k + 1..] ensures !Occurs(q.token, expanded) {
      ExpandHasNoOther(r.value, r.token, q.token);
    }
    NothingOccurs(rules[k + 1..], expanded);
    assert expanded + "" == expanded && r.value + "" == r.value;
    assert Resolve(rules, r.token + "") != Simultaneous(rules, r.token + "");
  }

  /** The same rules with other values, harmless ones, except for rule k. */
  ghost predicate Around(rules: seq<Rule>, k: nat, others: seq<Rule>)
    requires k < |rules|
  {
    && |others| == |rules| && others[k] == rules[k]
    && (forall i :: 0 <= i < |rules| ==> others[i].token == rules[i].token)
    && (forall i :: 0 <= i < |rules| && i != k ==> Harmless(others[i].value))
  }

  /** A value is right among all harmless values of the other rules exactly when it has no dollar pattern and
      keeps clear of the tokens that are replaced after it. */
  lemma ValueExactly(rules: seq<Rule>, k: nat)
    requires Tokens(rules) && k < |rules|
    ensures (forall others :: Around(rules, k, others) ==> SameOnFlatTemplates(others)) <==>
            NoDollarPattern(rules[k].value) &&
            forall j :: k < j < |rules| ==> KeepsClear(rules[k].value, rules[j].token)
  {
    var v := rules[k].value;
    if !NoDollarPattern(v) {
      DollarShowsAround(rules, k);
    } else if j :| k < j < |rules| && !KeepsClear(v, rules[j].token) {
      TokenShowsAround(rules, k, j);
    } else {
      forall others | Around(rules, k, others) ensures SameOnFlatTemplates(others) {
        AroundIsSafe(rules, k, others);
        forall template | Flat(template, false) ensures Resolve(others, template) == Simultaneous(others, template) {
          SequentialIsSimultaneous(others, template);
        }
      }
    }
  }

  lemma AroundIsSafe(rules: seq<Rule>, k: nat, others: seq<Rule>)
    requires Tokens(rules) && k < |rules| && NoDollarPattern(rules[k].value) && Around(rules, k, others)
    requires forall j :: k < j < |rules| ==> KeepsClear(rules[k].value, rules[j].token)
    ensures Tokens(others) && Safe(others)
  {
    AroundHasTokens(rules, k, others);
    forall i, j | 0 <= i < j < |rules| ensures KeepsClear(others[i].value, others[j].token) {
      if i != k {
        BracelessKeepsClear(others[i].value, others[j].token);
      }
    }
  }

  lemma AroundHasTokens(rules: seq<Rule>, k: nat, others: seq<Rule>)
    requires Tokens(rules) && k < |rules| && Around(rules, k, others)
    ensures Tokens(others)
  {
    forall r | r in others ensures IsToken(r.token) {
      var i :| 0 <= i < |others| && others[i] == r;
      assert rules[i] in rules;
    }
  }

  function Hashes(n: nat): string {
    seq(n, _ => '#')
  }

  lemma {:induction false} HashesAreHarmless(n: nat)
    ensures Harmless(Hashes(n))
  {
    if n > 0 {
      assert Hashes(n)[1..] == Hashes(n - 1);
      HashesAreHarmless(n - 1);
    }
  }

  function TotalLength(rules: seq<Rule>): nat {
    if rules == [] then 0 else |rules[0].token| + TotalLength(rules[1..])
  }

  lemma {:induction false} WithinTotal(rules: seq<Rule>, r: Rule)
    requires r in rules
    ensures |r.token| <= TotalLength(rules)
  {
    if r != rules[0] {
      WithinTotal(rules[1..], r);
    }
  }

  /** The values after rule k are much longer than their tokens. */
  predicate LongAfter(rules: seq<Rule>, k: nat, m: nat)
    requires k < |rules|
  {
    forall r :: r in rules[k + 1..] ==> NoDollarPattern(r.value) && |r.value| >= |r.token| + m
  }

  /** Very long values around rule k: a later replacement can not go unnoticed. */
  lemma LongValues(rules: seq<Rule>, k: nat, m: nat) returns (others: seq<Rule>)
    requires Tokens(rules) && k < |rules|
    ensures Around(rules, k, others) && Tokens(others)
    ensures LongAfter(others, k, m)
  {
    var filler := Hashes(m + TotalLength(rules));
    HashesAreHarmless(m + TotalLength(rules));
    others := seq(|rules|, i requires 0 <= i < |rules| => if i == k then rules[k] else Rule(rules[i].token, filler));
    forall i | 0 <= i < |rules| ensures others[i].token == rules[i].token && |rules[i].token| <= TotalLength(rules) {
      WithinTotal(rules, rules[i]);
    }
    AroundHasTokens(rules, k, others);
  }

  lemma LongDollarShows(rules: seq<Rule>, k: nat)
    requires Tokens(rules) && k < |rules| && !NoDollarPattern(rules[k].value)
    requires LongAfter(rules, k, |rules[k].value| + 1)
    ensures !SameOnFlatTemplates(rules)
  {
    var r := rules[k];
    OnToken(rules, k, "");
    ExpandFixesExactly(r.value, r.token);
    ResolveGrows(rules[k + 1..], Expand(r.value, r.token, "", "") + "", |r.value| + 1);
    assert Expand(r.value, r.token, "", "") + "" == Expand(r.value, r.token, "", "") && r.value + "" == r.value;
    assert Resolve(rules, r.token + "") != Simultaneous(rules, r.token + "");
  }

  lemma DollarShowsAround(rules: seq<Rule>, k: nat)
    requires Tokens(rules) && k < |rules| && !NoDollarPattern(rules[k].value)
    ensures exists others :: Around(rules, k, others) && !SameOnFlatTemplates(others)
  {
    var others := LongValues(rules, k, |rules[k].value| + 1);
    LongDollarShows(others, k);
  }

  /** What does not keep clear of a token has it, or has it once the rest of the token follows. */
  lemma {:induction false} Completed(v: string, token: string) returns (text: string)
    requires IsToken(token) && !KeepsClear(v, token)
    ensures '{' !in text && Occurs(token, v + text)
  {
    if token <= v {
      text := "";
      assert v + text == v;
    } else if v <= token {
      text := token[|v|..];
      assert v + text == token;
      TokenTail(token);
      assert forall c :: c in text ==> c in token[1..];
    } else {
      text := Completed(v[1..], token);
      assert (v + text)[1..] == v[1..] + text;
    }
  }

  lemma LongTokenShows(rules: seq<Rule>, k: nat, j: nat)
    requires Tokens(rules) && k < j < |rules| && NoDollarPattern(rules[k].value)
    requires !KeepsClear(rules[k].value, rules[j].token) && LongAfter(rules, k, 1)
    ensures !SameOnFlatTemplates(rules)
  {
    var r := rules[k];
    var text := Completed(r.value, rules[j].token);
    OnToken(rules, k, text);
    ExpandPlain(r.value, r.token, "", text);
    assert rules[j] in rules[k + 1..] && Occurs(rules[j].token, r.value + text);
    ResolveGrows(rules[k + 1..], r.value + text, 1);
    assert Resolve(rules, r.token + text) != Simultaneous(rules, r.token + text);
  }

  lemma TokenShowsAround(rules: seq<Rule>, k: nat, j: nat)
    requires Tokens(rules) && k < j < |rules| && NoDollarPattern(rules[k].value)
    requires !KeepsClear(rules[k].value, rules[j].token)
    ensures exists others :: Around(rules, k, others) && !SameOnFlatTemplates(others)
  {
    var others := LongValues(rules, k, 1);
    LongTokenShows(others, k, j);
  }

  /** Among values that are not harmless, a value with a later token can be right all the same: here the later
      rule puts its own token back. */
  lemma UnsafeYetRight(first: Rule, own: Rule)
    requires Tokens([first, own]) && first.value == own.token == own.value && NoDollarPattern(own.token)
    ensures !Safe([first, own]) && SameOnFlatTemplates([first, own])
  {
    var rules := [first, own];
    assert rules[0] == first && rules[1] == own && !KeepsClear(first.value, own.token);
    assert SafeOrOwn(rules);
    forall template | Flat(template, false) ensures Resolve(rules, template) == Simultaneous(rules, template) {
      SequentialIsSimultaneous(rules, template);
    }
  }

  // ---------------------------------------------------------------- the exact templates

  /** An open brace with a beginning of a name. */
  predicate IsOuter(outer: string) {
    outer != [] && outer[0] == '{' && BraceFree(outer[1..])
  }

  /** A token directly inside an unclosed brace, somewhere in the text. */
  predicate Nested(s: string, outer: string, token: string) {
    outer + token <= s || (s != [] && Nested(s[1..], outer, token))
  }

  lemma {:induction false} NestedBehind(u: string, s: string, outer: string, token: string)
    requires Nested(s, outer, token)
    ensures Nested(u + s, outer, token)
  {
    if u == [] {
      assert u + s == s;
    } else {
      assert (u + s)[1..] == u[1..] + s;
      NestedBehind(u[1..], s, outer, token);
    }
  }

  lemma {:induction false} NestedBehindText(u: string, s: string, outer: string, token: string)
    requires IsOuter(outer) && '{' !in u && Nested(u + s, outer, token)
    ensures Nested(s, outer, token)
  {
    if u == [] {
      assert u + s == s;
    } else {
      assert u[0] in u && (u + s)[1..] == u[1..] + s && forall c :: c in u[1..] ==> c in u;
      assert (outer + token)[0] == '{' && (u + s)[0] != '{';
      NestedBehindText(u[1..], s, outer, token);
    }
  }

  /** The text up to the first brace. */
  function Bare(s: string): (u: string)
    ensures BraceFree(u) && u <= s && ('}' in s ==> |u| < |s| && (s[|u|] == '{' || s[|u|] == '}'))
  {
    if s == [] || s[0] == '{' || s[0] == '}' then [] else [s[0]] + Bare(s[1..])
  }

  /** The last brace that is opened before the first one is closed, with the one before it. */
  lemma {:induction false} InnermostPair(open: string, s: string) returns (outer: string, token: string)
    requires IsOuter(open) && s != [] && s[0] == '{' && '}' in s
    ensures IsOuter(outer) && IsToken(token) && Nested(open + s, outer, token)
    decreases |s|
  {
    var inner := [s[0]] + Bare(s[1..]);
    var rest := s[|inner|..];
    assert s == inner + rest && inner[1..] == Bare(s[1..]) && IsOuter(inner);
    if rest[0] == '}' {
      outer, token := open, inner + [rest[0]];
      assert token[1..|token| - 1] == inner[1..] && token <= s;
      assert outer + token <= open + s;
    } else {
      outer, token := InnermostPair(inner, rest);
      NestedBehind(open, s, outer, token);
    }
  }

  lemma {:induction false} NotFlatIsNested(s: string, open: string) returns (outer: string, token: string)
    requires !Flat(s, open != []) && (open == [] || IsOuter(open))
    ensures IsOuter(outer) && IsToken(token) && Nested(open + s, outer, token)
    decreases |s|
  {
    assert open + s == (open + [s[0]]) + s[1..] == open + ([s[0]] + s[1..]);
    if s[0] == '{' && open != [] {
      outer, token := InnermostPair(open, s);
    } else if s[0] == '{' || (open != [] && s[0] != '}') {
      assert (open + [s[0]])[1..] == if open == [] then [] else open[1..] + [s[0]];
      outer, token := NotFlatIsNested(s[1..], open + [s[0]]);
    } else {
      outer, token := NotFlatIsNested(s[1..], []);
      assert [] + s[1..] == s[1..];
      NestedBehind(open + [s[0]], s[1..], outer, token);
    }
  }

  lemma TokenChars(s: string, token: string)
    requires IsToken(token) && token <= s
    ensures s[|token| - 1] == '}' && forall i :: 1 <= i < |token| - 1 ==> s[i] != '{' && s[i] != '}'
  {
    assert forall i :: 1 <= i < |token| - 1 ==> s[i] == token[1..|token| - 1][i - 1];
  }

  lemma OuterChars(s: string, outer: string)
    requires IsOuter(outer) && outer <= s
    ensures forall i :: 1 <= i < |outer| ==> s[i] != '{' && s[i] != '}'
  {
    assert forall i :: 1 <= i < |outer| ==> s[i] == outer[1..][i - 1];
  }

  /** No token begins at a brace that is followed by another one before it is closed. */
  lemma NoTokenAtOuter(s: string, outer: string, token: string)
    requires IsOuter(outer) && IsToken(token) && outer <= s && |outer| < |s| && s[|outer|] == '{'
    ensures !(token <= s)
  {
    OuterChars(s, outer);
    assert |token| >= 2;
    hide IsOuter;
    if token <= s {
      TokenChars(s, token);
      hide IsToken;
      assert false;
    }
  }

  lemma PlainInOuter(outer: string, r: Rule, rest: string)
    requires IsOuter(outer) && IsToken(r.token)
    ensures Plain(outer + (r.token + rest), r) == outer + (r.value + Plain(rest, r))
  {
    var inner := r.token + rest;
    var s := outer + inner;
    assert inner[0] == '{' && s[|outer|] == inner[0] && outer <= s;
    NoTokenAtOuter(s, outer, r.token);
    BracelessKeepsClear(outer[1..], r.token);
    hide Plain, IsOuter, IsToken, BraceFree, KeepsClear;
    HeadAndTail(outer, inner);
    PlainAtToken(r, rest);
    PlainStep(s, r);
    PlainSkips(outer[1..], inner, r);
    HeadAndTail(outer, Plain(inner, r));
  }

  lemma ClosesAtFront(s: string, outer: string, r: Rule)
    requires IsOuter(outer) && IsToken(r.token) && outer + r.token <= s
    ensures Occurs(outer + r.value, Plain(s, r))
  {
    var rest := s[|outer + r.token|..];
    assert s == outer + (r.token + rest);
    PlainInOuter(outer, r, rest);
    hide IsOuter, IsToken, Plain;
    assert outer + (r.value + Plain(rest, r)) == outer + r.value + Plain(rest, r);
  }

  lemma NotNestedAtToken(s: string, outer: string, token: string)
    requires IsOuter(outer) && IsToken(token) && token <= s
    ensures !(outer + token <= s)
  {
    assert outer + token <= s ==> outer <= s && |outer| < |s| && s[|outer|] == (outer + token)[|outer|] == '{';
    hide IsOuter, IsToken;
    if outer <= s && |outer| < |s| && s[|outer|] == '{' {
      NoTokenAtOuter(s, outer, token);
    }
  }

  /** Nested braces do not begin inside a token. */
  lemma NestedAfterToken(s: string, outer: string, token: string)
    requires IsOuter(outer) && IsToken(token) && token <= s && Nested(s, outer, token)
    ensures Nested(s[|token|..], outer, token)
  {
    NotNestedAtToken(s, outer, token);
    TokenTail(token);
    assert s[1..] == token[1..] + s[|token|..];
    NestedBehindText(token[1..], s[|token|..], outer, token);
  }

  /** Replacing the inner token puts its value directly behind the outer brace. */
  lemma {:induction false} ReplacingCloses(s: string, outer: string, r: Rule)
    requires IsOuter(outer) && IsToken(r.token) && Nested(s, outer, r.token)
    ensures Occurs(outer + r.value, Plain(s, r))
    decreases |s|
  {
    if outer + r.token <= s {
      ClosesAtFront(s, outer, r);
    } else if r.token <= s {
      NestedAfterToken(s, outer, r.token);
      ReplacingCloses(s[|r.token|..], outer, r);
      OccursBehind(outer + r.value, r.value, Plain(s[|r.token|..], r));
    } else {
      ReplacingCloses(s[1..], outer, r);
      OccursBehind(outer + r.value, [s[0]], Plain(s[1..], r));
    }
  }

  /** A token that is longer than the text is not in it. */
  lemma {:induction false} LongTokenIgnored(s: string, r: Rule, long: Rule)
    requires |long.token| > |s|
    ensures Simultaneous([r, long], s) == Plain(s, r)
    decreases |s|
  {
    if s != [] {
      assert [r, long][1..] == [long] && [long][1..] == [];
      assert RuleAt([r, long], s) == if r.token <= s then [r] else [];
      LongTokenIgnored(if r.token <= s then s[|r.token|..] else s[1..], r, long);
    }
  }

  lemma {:induction false} HashesAndBrace(n: nat)
    ensures '{' !in Hashes(n) + "}" && NoDollarPattern(Hashes(n) + "}")
  {
    if n > 0 {
      assert (Hashes(n) + "}")[1..] == Hashes(n - 1) + "}";
      HashesAndBrace(n - 1);
    }
  }

  lemma ClosedOuterIsToken(outer: string, n: nat)
    requires IsOuter(outer)
    ensures IsToken(outer + (Hashes(n) + "}"))
  {
    var t := outer + (Hashes(n) + "}");
    assert t[1..|t| - 1] == outer[1..] + Hashes(n);
  }

  lemma TwoRulesAreSafe(r: Rule, long: Rule)
    requires IsToken(r.token) && IsToken(long.token) && r.token != long.token
    requires NoDollarPattern(r.value) && NoDollarPattern(long.value) && '{' !in r.value
    ensures Tokens([r, long]) && Safe([r, long])
  {
    BracelessKeepsClear(r.value, long.token);
    hide IsToken, NoDollarPattern, KeepsClear;
  }

  /** Two safe rules that tell the difference in a template with nested braces. */
  lemma NestedShows(template: string, outer: string, token: string) returns (rules: seq<Rule>)
    requires IsOuter(outer) && IsToken(token) && Nested(template, outer, token)
    ensures Tokens(rules) && Safe(rules) && Resolve(rules, template) != Simultaneous(rules, template)
  {
    var n := |template| + |token|;
    var r := Rule(token, Hashes(n) + "}");
    var long := Rule(outer + r.value, Hashes(|outer| + n + 2));
    HashesAndBrace(n);
    HashesAreHarmless(|outer| + n + 2);
    ClosedOuterIsToken(outer, n);
    hide IsToken, IsOuter, NoDollarPattern;
    TwoRulesAreSafe(r, long);
    ReplacingCloses(template, outer, r);
    PlainGrows(Plain(template, r), long, 1);
    LongTokenIgnored(template, r, long);
    ReplacePlain("", template, r);
    ReplacePlain("", Plain(template, r), long);
    rules := [r, long];
    assert rules[1..] == [long];
    ResolveOne(long, Plain(template, r));
    hide Tokens, Safe, ReplaceFrom, Plain, Nested;
  }

  /** A template is right for all safe rules exactly when it is flat. */
  lemma TemplateExactly(template: string)
    ensures (forall rules :: Tokens(rules) && Safe(rules) ==>
               Resolve(rules, template) == Simultaneous(rules, template)) <==>
            Flat(template, false)
  {
    if Flat(template, false) {
      forall rules | Tokens(rules) && Safe(rules)
        ensures Resolve(rules, template) == Simultaneous(rules, template)
      {
        SequentialIsSimultaneous(rules, template);
      }
    } else {
      var outer, token := NotFlatIsNested(template, []);
      assert [] + template == template;
      hide Tokens, Safe, Resolve, Simultaneous;
      var rules := NestedShows(template, outer, token);
      assert Resolve(rules, template) != Simultaneous(rules, template);
    }
  }

  // ---------------------------------------------------------------- the plugin pane

  lemma PaneTokens()
    ensures forall i :: 0 <= i < 6 ==> IsToken(PaneRules("", "", "", "")[i].token)
  {
    assert IsToken("{actionPath}");
    assert IsToken("{contextPath}");
    assert IsToken("{currentPath}");
    assert IsToken("{paneId}");
    assert IsToken("{pluginId}");
    assert IsToken("{pluginName}");
    hide IsToken;
  }

  lemma PaneTokensDiffer()
    ensures forall i, j :: 0 <= i < j < 6 ==> PaneRules("", "", "", "")[i].token != PaneRules("", "", "", "")[j].token
  {
    assert "{actionPath}"[1] == 'a' && "{pluginName}"[1] == 'p';
    assert "{contextPath}"[2] == 'o' && "{currentPath}"[2] == 'u';
  }

  /** The placeholders in the order they are replaced: three for the current path, then the pane's id and the plugin's
      id and name. */
  lemma PaneShape(currentPath: string, localId: string, pluginId: string, pluginName: string)
    ensures var rules := PaneRules(currentPath, localId, pluginId, pluginName);
            && |rules| == 6 && Tokens(rules)
            && (forall i :: 0 <= i < 3 ==> rules[i].value == currentPath)
            && rules[3].value == localId && rules[4].value == pluginId && rules[5].value == pluginName
            && rules[0].token == "{actionPath}"
            && rules[1].token == "{contextPath}" && rules[2].token == "{currentPath}" && rules[3].token == "{paneId}"
            && rules[4].token == "{pluginId}" && rules[5].token == "{pluginName}"
            && forall i :: 0 <= i < 6 ==> |rules[i].token| <= 13
  {
    var rules, bare := PaneRules(currentPath, localId, pluginId, pluginName), PaneRules("", "", "", "");
    PaneTokens();
    PaneTokensDiffer();
    assert forall i :: 0 <= i < 6 ==> rules[i].token == bare[i].token;
    hide IsToken;
    forall r | r in rules ensures IsToken(r.token) {
      var i :| 0 <= i < 6 && rules[i] == r;
      assert IsToken(bare[i].token);
    }
  }

  /** The plugin pane's placeholders, with values that have no `{`. */
  lemma PaneTemplatesResolveExactly(currentPath: string, localId: string, pluginId: string, pluginName: string)
    requires forall v :: v in [currentPath, localId, pluginId, pluginName] ==> '{' !in v
    ensures SameOnFlatTemplates(PaneRules(currentPath, localId, pluginId, pluginName)) <==>
            forall v :: v in [currentPath, localId, pluginId, pluginName] ==> NoDollarPattern(v)
  {
    var rules := PaneRules(currentPath, localId, pluginId, pluginName);
    var values := [currentPath, localId, pluginId, pluginName];
    PaneShape(currentPath, localId, pluginId, pluginName);
    assert values[0] == currentPath && values[1] == localId && values[2] == pluginId && values[3] == pluginName;
    hide PaneRules, NoDollarPattern, SameOnFlatTemplates, Tokens;
    assert forall i :: 0 <= i < 6 ==> rules[i].value in values;
    assert rules[0] in rules && rules[3] in rules && rules[4] in rules && rules[5] in rules;
    ValuesExactly(rules);
  }

  // ---------------------------------------------------------------- any current path

  lemma {:induction false} PlainShrinks(s: string, r: Rule)
    requires |r.value| < |r.token|
    ensures |Plain(s, r)| <= |s| && (Occurs(r.token, s) ==> |Plain(s, r)| < |s|)
    decreases |s|
  {
    if s != [] {
      PlainShrinks(if r.token <= s then s[|r.token|..] else s[1..], r);
    }
  }

  lemma {:induction false} PlainChangesSame(s: string, r: Rule)
    requires |r.value| == |r.token| && r.value != r.token && Occurs(r.token, s)
    ensures Plain(s, r) != s
  {
    if r.token <= s {
      assert Plain(s, r)[..|r.value|] == r.value && s[..|r.token|] == r.token;
    } else {
      PlainChangesSame(s[1..], r);
      assert Plain(s, r)[1..] == Plain(s[1..], r);
    }
  }

  /** A rule leaves a text with its token unchanged only if it puts its own token back. */
  lemma PlainChanges(s: string, r: Rule)
    requires r.value != r.token && Occurs(r.token, s)
    ensures Plain(s, r) != s
  {
    if |r.value| == |r.token| {
      PlainChangesSame(s, r);
    } else if |r.value| < |r.token| {
      PlainShrinks(s, r);
    } else {
      PlainGrows(s, r, 1);
    }
  }

  lemma {:induction false} OpensExactly(s: string)
    ensures Opens(s) == 0 <==> '{' !in s
  {
    if s != [] {
      OpensExactly(s[1..]);
    }
  }

  lemma TokenOpens(t: string)
    requires IsToken(t)
    ensures Opens(t) == 1
  {
    TokenTail(t);
    OpensExactly(t[1..]);
  }

  /** With a value that has braces, replacing never takes braces away, and adds some if the value has two. */
  lemma {:induction false} PlainOpens(s: string, r: Rule)
    requires IsToken(r.token) && Opens(r.value) >= 1
    ensures Opens(Plain(s, r)) >= Opens(s)
    ensures Opens(r.value) >= 2 && Occurs(r.token, s) ==> Opens(Plain(s, r)) > Opens(s)
    decreases |s|
  {
    if s != [] {
      if r.token <= s {
        var rest := s[|r.token|..];
        PlainOpens(rest, r);
        TokenOpens(r.token);
        assert s == r.token + rest;
        OpensAdds(r.token, rest);
        OpensAdds(r.value, Plain(rest, r));
        hide IsToken, Occurs, Opens;
      } else {
        PlainOpens(s[1..], r);
        assert ([s[0]] + Plain(s[1..], r))[1..] == Plain(s[1..], r);
      }
    }
  }

  /** In a text with a single brace the token stands once, in braceless text. */
  lemma {:induction false} OnlyOccurrence(s: string, r: Rule) returns (before: string, after: string)
    requires IsToken(r.token) && Occurs(r.token, s) && Opens(s) <= 1
    ensures '{' !in before && '{' !in after && Plain(s, r) == before + (r.value + after)
  {
    if r.token <= s {
      before, after := "", s[|r.token|..];
      assert s == r.token + after;
      OpensAdds(r.token, after);
      TokenOpens(r.token);
      OpensExactly(after);
      PlainOfBraceless(after, r);
    } else {
      if s[0] == '{' {
        OpensExactly(s[1..]);
        NotInEmpty(s[1..], r.token);
        assert false;
      }
      before, after := OnlyOccurrence(s[1..], r);
      before := [s[0]] + before;
    }
  }

  lemma PlainOfBraceless(s: string, r: Rule)
    requires IsToken(r.token) && '{' !in s
    ensures Plain(s, r) == s
  {
    BracelessKeepsClear(s, r.token);
    PlainSkips(s, "", r);
    assert s + "" == s;
  }

  /** Two rules with the same value, one after the other, do not undo each other. */
  lemma TwoRulesChange(s: string, r: Rule, next: Rule)
    requires IsToken(r.token) && IsToken(next.token) && r.value == next.value != r.token
    requires Occurs(r.token, s) && KeepsClear(r.value, next.token) && (Opens(r.value) < 2 ==> Opens(s) <= 1)
    ensures Plain(Plain(s, r), next) != s
  {
    if Opens(r.value) >= 2 {
      PlainOpens(s, r);
      PlainOpens(Plain(s, r), next);
    } else {
      PlainChanges(s, r);
      var before, after := OnlyOccurrence(s, r);
      BracelessKeepsClear(before, next.token);
      PlainSkips(before, r.value + after, next);
      PlainSkips(r.value, after, next);
      PlainOfBraceless(after, next);
    }
  }

  /** The current path has no dollar pattern and keeps clear of the tokens behind the first one, or is one of the
      two that are replaced by the path itself. */
  predicate PathFits(path: string) {
    && NoDollarPattern(path)
    && KeepsClear(path, "{paneId}") && KeepsClear(path, "{pluginId}") && KeepsClear(path, "{pluginName}")
    && (path == "{contextPath}" || KeepsClear(path, "{contextPath}"))
    && (path == "{currentPath}" || KeepsClear(path, "{currentPath}"))
  }

  lemma FittingPathIsRight(path: string, localId: string, pluginId: string, pluginName: string)
    requires PathFits(path) && Harmless(localId) && Harmless(pluginId) && Harmless(pluginName)
    ensures SameOnFlatTemplates(PaneRules(path, localId, pluginId, pluginName))
  {
    var rules := PaneRules(path, localId, pluginId, pluginName);
    PaneShape(path, localId, pluginId, pluginName);
    hide PaneRules, NoDollarPattern, KeepsClear;
    forall i, j | 0 <= i < j < 6
      ensures KeepsClear(rules[i].value, rules[j].token) || rules[j].value == rules[j].token
    {
      if i >= 3 {
        assert rules[j] in rules;
        BracelessKeepsClear(rules[i].value, rules[j].token);
      }
    }
    hide Tokens;
    forall template | Flat(template, false) ensures Resolve(rules, template) == Simultaneous(rules, template) {
      SequentialIsSimultaneous(rules, template);
    }
  }

  /** Pane rules whose ids and name are very long. */
  lemma LongPane(path: string, m: nat) returns (filler: string)
    ensures Harmless(filler) && LongAfter(PaneRules(path, filler, filler, filler), 2, m)
  {
    filler := Hashes(m + 13);
    HashesAreHarmless(m + 13);
    var rules := PaneRules(path, filler, filler, filler);
    PaneShape(path, filler, filler, filler);
    hide PaneRules, Tokens, Harmless;
    forall r | r in rules[3..] ensures r.value == filler && |r.token| <= 13 {
      var i :| 0 <= i < 3 && rules[3..][i] == r;
      assert r == rules[3 + i];
    }
    assert NoDollarPattern(filler) by { HashesAreHarmless(m + 13); }
  }

  /** What the last three rules do to a changed text does not bring it back. */
  lemma PathTokenShows(rules: seq<Rule>, k: nat, text: string, changed: string)
    requires Tokens(rules) && |rules| == 6 && k < 2 && '{' !in text && NoDollarPattern(rules[k].value)
    requires LongAfter(rules, 2, |rules[k].value + text| + 1) && changed != rules[k].value + text
    requires Resolve(rules[k + 1..], rules[k].value + text) == Resolve(rules[3..], changed)
    ensures !SameOnFlatTemplates(rules)
  {
    var r := rules[k];
    OnToken(rules, k, text);
    ExpandPlain(r.value, r.token, "", text);
    ResolveGrows(rules[3..], changed, |r.value + text| + 1);
    assert Resolve(rules, r.token + text) != Simultaneous(rules, r.token + text);
  }

  lemma ResolveNext(rules: seq<Rule>, k: nat, s: string)
    requires k < |rules| && NoDollarPattern(rules[k].value)
    ensures Resolve(rules[k..], s) == Resolve(rules[k + 1..], Plain(s, rules[k]))
  {
    ReplacePlain("", s, rules[k]);
    assert rules[k..][0] == rules[k] && rules[k..][1..] == rules[k + 1..];
  }

  /** There are harmless ids and a harmless name with which the path is wrong on some flat template. */
  ghost predicate PathFails(path: string) {
    exists localId, pluginId, pluginName ::
      && Harmless(localId) && Harmless(pluginId) && Harmless(pluginName)
      && !SameOnFlatTemplates(PaneRules(path, localId, pluginId, pluginName))
  }

  lemma DollarPathFails(path: string)
    requires !NoDollarPattern(path)
    ensures PathFails(path)
  {
    var filler := LongPane(path, |path| + 1);
    PaneShape(path, filler, filler, filler);
    hide PaneRules, Tokens, NoDollarPattern, SameOnFlatTemplates;
    LongDollarShows(PaneRules(path, filler, filler, filler), 2);
  }

  lemma LateTokenFails(path: string)
    requires NoDollarPattern(path)
    requires !(KeepsClear(path, "{paneId}") && KeepsClear(path, "{pluginId}") && KeepsClear(path, "{pluginName}"))
    ensures PathFails(path)
  {
    var filler := LongPane(path, 1);
    var rules := PaneRules(path, filler, filler, filler);
    PaneShape(path, filler, filler, filler);
    var j := if !KeepsClear(path, "{paneId}") then 3 else if !KeepsClear(path, "{pluginId}") then 4 else 5;
    hide PaneRules, Tokens, NoDollarPattern, KeepsClear, SameOnFlatTemplates;
    LongTokenShows(rules, 2, j);
  }

  lemma CurrentPathTokenFails(path: string)
    requires NoDollarPattern(path) && path != "{currentPath}" && !KeepsClear(path, "{currentPath}")
    ensures PathFails(path)
  {
    PaneTokens();
    var text := Completed(path, PaneRules("", "", "", "")[2].token);
    var filler := LongPane(path, |path + text| + 1);
    var rules := PaneRules(path, filler, filler, filler);
    PaneShape(path, filler, filler, filler);
    hide PaneRules, Tokens, NoDollarPattern, KeepsClear, SameOnFlatTemplates, IsToken, Harmless;
    PlainChanges(path + text, rules[2]);
    ResolveNext(rules, 2, path + text);
    PathTokenShows(rules, 1, text, Plain(path + text, rules[2]));
  }

  lemma ContextPathTokenShows(rules: seq<Rule>, path: string, text: string)
    requires Tokens(rules) && |rules| == 6 && forall i :: 0 <= i < 3 ==> rules[i].value == path
    requires NoDollarPattern(path) && LongAfter(rules, 2, |path + text| + 1) && '{' !in text
    requires path != rules[1].token && Occurs(rules[1].token, path + text) && KeepsClear(path, rules[2].token)
    ensures !SameOnFlatTemplates(rules)
  {
    var x := path + text;
    assert rules[1] in rules && rules[2] in rules && IsToken(rules[1].token) && IsToken(rules[2].token);
    hide Tokens, NoDollarPattern, KeepsClear, SameOnFlatTemplates, IsToken, LongAfter, Occurs, Plain, Resolve;
    OpensAdds(path, text);
    OpensExactly(text);
    hide Opens;
    TwoRulesChange(x, rules[1], rules[2]);
    ResolveNext(rules, 1, x);
    ResolveNext(rules, 2, Plain(x, rules[1]));
    PathTokenShows(rules, 0, text, Plain(Plain(x, rules[1]), rules[2]));
  }

  lemma ContextPathTokenFails(path: string)
    requires NoDollarPattern(path) && path != "{contextPath}" && !KeepsClear(path, "{contextPath}")
    requires KeepsClear(path, "{currentPath}")
    ensures PathFails(path)
  {
    PaneTokens();
    var text := Completed(path, PaneRules("", "", "", "")[1].token);
    var filler := LongPane(path, |path + text| + 1);
    PaneShape(path, filler, filler, filler);
    hide PaneRules, Tokens, NoDollarPattern, KeepsClear, SameOnFlatTemplates, IsToken, Harmless, LongAfter;
    ContextPathTokenShows(PaneRules(path, filler, filler, filler), path, text);
  }

  /** A token keeps clear of every other token. */
  lemma TokenKeepsClear(t: string, token: string)
    requires IsToken(t) && IsToken(token) && t != token
    ensures KeepsClear(t, token)
  {
    TokenTail(t);
    BracelessKeepsClear(t[1..], token);
    if token <= t {
      TokensDoNotNest(t, token, t);
    } else if t <= token {
      TokensDoNotNest(t, token, token);
    }
  }

  /** For harmless ids and names, whatever they are, any current path is right on all flat templates exactly when
      it fits. */
  lemma PanePathExactly(path: string)
    ensures (forall localId, pluginId, pluginName ::
               Harmless(localId) && Harmless(pluginId) && Harmless(pluginName) ==>
               SameOnFlatTemplates(PaneRules(path, localId, pluginId, pluginName))) <==>
            PathFits(path)
  {
    assert IsToken("{contextPath}") && IsToken("{currentPath}");
    assert "{contextPath}"[2] == 'o' && "{currentPath}"[2] == 'u';
    TokenKeepsClear("{currentPath}", "{contextPath}");
    hide IsToken, KeepsClear, NoDollarPattern, SameOnFlatTemplates, Harmless, PaneRules;
    if PathFits(path) {
      forall localId, pluginId, pluginName | Harmless(localId) && Harmless(pluginId) && Harmless(pluginName)
        ensures SameOnFlatTemplates(PaneRules(path, localId, pluginId, pluginName))
      {
        FittingPathIsRight(path, localId, pluginId, pluginName);
      }
    } else if !NoDollarPattern(path) {
      DollarPathFails(path);
    } else if !(KeepsClear(path, "{paneId}") && KeepsClear(path, "{pluginId}") && KeepsClear(path, "{pluginName}")) {
      LateTokenFails(path);
    } else if path != "{currentPath}" && !KeepsClear(path, "{currentPath}") {
      CurrentPathTokenFails(path);
    } else {
      ContextPathTokenFails(path);
    }
  }

  // ---------------------------------------------------------------- without the conditions

  lemma ReplaceWhole(r: Rule)
    ensures ReplaceFrom("", r.token, r) == Expand(r.value, r.token, "", "")
    ensures Simultaneous([r], r.token) == r.value
  {
    assert r.token[|r.token|..] == [];
  }

  /** A value that is itself a later token is replaced once more. */
  lemma ValueWithToken(first: Rule, second: Rule)
    requires first.value == second.token && first.token != second.token
    requires NoDollarPattern(second.token) && NoDollarPattern(second.value)
    ensures Resolve([first, second], first.token) == second.value
    ensures Simultaneous([first, second], first.token) == second.token
  {
    ReplaceWhole(first);
    ReplaceWhole(second);
    ExpandPlain(second.token, first.token, "", "");
    ExpandPlain(second.value, second.token, "", "");
    assert first.token[|first.token|..] == [];
    assert [second][1..] == [] && Resolve([second], second.token) == second.value;
    assert [first, second][1..] == [second];
    assert Resolve([first, second], first.token) == Resolve([second], second.token);
  }

  /** In a template that is not flat, a replaced value can complete a token. */
  lemma NestedTemplate(first: Rule, second: Rule)
    requires first == Rule("{a}", "b") && second == Rule("{b}", "c")
    ensures Resolve([first, second], "{{a}}") == "c" && Simultaneous([first, second], "{{a}}") == "{b}"
  {
    assert "{{a}}"[1..] == "{a}}" && "{a}}"[3..] == "}" && "}"[1..] == "" && "b"[1..] == "" && "c"[1..] == "";
    assert Plain("}", first) == "}" && Plain("{a}}", first) == "b}" && Plain("{{a}}", first) == "{b}";
    ReplacePlain("", "{{a}}", first);
    ReplaceWhole(second);
    ExpandPlain("c", "{b}", "", "");
    assert [first, second][1..] == [second] && [second][1..] == [];
    assert Resolve([second], "{b}") == "c";
    var rules := [first, second];
    assert RuleAt(rules, "{{a}}") == [] && RuleAt(rules, "{a}}") == [first] && RuleAt(rules, "}") == [];
    assert Simultaneous(rules, "}") == "}" && Simultaneous(rules, "{a}}") == "b}";
  }

  /** A dollar sign in a value is special. */
  lemma ValueWithDollar(token: string)
    requires token != []
    ensures Resolve([Rule(token, "$&")], token) == token && Simultaneous([Rule(token, "$&")], token) == "$&"
  {
    var r := Rule(token, "$&");
    ReplaceWhole(r);
    assert [r][1..] == [] && "$&"[2..] == [];
    assert Expand("$&", token, "", "") == token + Expand("", token, "", "");
  }

  lemma {:induction false} ReplaceBehind(before: string, text: string, token: string, after: string, r: Rule)
    requires IsToken(token) && r.token == token && '{' !in text && '{' !in after
    ensures ReplaceFrom(before, text + (token + after), r) ==
              text + (Expand(r.value, token, before + text, after) + after)
    decreases |text|
  {
    if text == [] {
      assert text + (token + after) == token + after && before + text == before;
      assert (token + after)[|token|..] == after;
      NotInEmpty(after, token);
      NotReplaced(before + token, after, r);
      hide Expand;
    } else {
      var s := text + (token + after);
      assert text[0] in text && s[0] == text[0] != token[0] && s[1..] == text[1..] + (token + after);
      assert forall c :: c in text[1..] ==> c in text;
      assert before + [text[0]] + text[1..] == before + text;
      hide Expand, IsToken;
      ReplaceBehind(before + [text[0]], text[1..], token, after, r);
      HeadAndTail(text, Expand(r.value, token, before + text, after) + after);
    }
  }

  lemma ExpandSamples(token: string, before: string, after: string)
    ensures Expand("$$", token, before, after) == "$" && Expand("$&", token, before, after) == token
    ensures Expand("$`", token, before, after) == before && Expand("$'", token, before, after) == after
    ensures Expand("$1", token, before, after) == "$1"
  {
    assert "$$"[2..] == [] && "$&"[2..] == [] && "$`"[2..] == [] && "$'"[2..] == [];
    assert "$1"[1..] == "1" && "1"[1..] == [];
  }

  /** What the dollar patterns stand for, around a single token: a dollar sign, the token, the text before it and the
      text behind it. */
  lemma DollarPatternsMean(before: string, token: string, after: string)
    requires IsToken(token) && '{' !in before && '{' !in after
    ensures ReplaceFrom("", before + (token + after), Rule(token, "$$")) == before + ("$" + after)
    ensures ReplaceFrom("", before + (token + after), Rule(token, "$&")) == before + (token + after)
    ensures ReplaceFrom("", before + (token + after), Rule(token, "$`")) == before + (before + after)
    ensures ReplaceFrom("", before + (token + after), Rule(token, "$'")) == before + (after + after)
    ensures ReplaceFrom("", before + (token + after), Rule(token, "$1")) == before + ("$1" + after)
  {
    ReplaceBehind("", before, token, after, Rule(token, "$$"));
    ReplaceBehind("", before, token, after, Rule(token, "$&"));
    ReplaceBehind("", before, token, after, Rule(token, "$`"));
    ReplaceBehind("", before, token, after, Rule(token, "$'"));
    ReplaceBehind("", before, token, after, Rule(token, "$1"));
    ExpandSamples(token, before, after);
    assert "" + before == before;
    hide *;
  }
}
