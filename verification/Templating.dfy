/**
 Placeholder templates of catalog entries: the check made by `virtwork validate`
 (internal/workloads/catalog.go) and the substitution made at deploy time
 (internal/workloads/generic.go, generic_multi.go, workload.go).
 */
module Templating {

  // ---------------------------------------------------------------------
  // What the placeholder expression matches
  // ---------------------------------------------------------------------

  /** The first '}' of `s` is directly followed by a second one. */
  predicate Closes(s: string) {
    s != "" && if s[0] == '}' then |s| > 1 && s[1] == '}' else Closes(s[1..])
  }

  /** The expression `\{\{([^}]+)\}\}` matches at the start of `s`. */
  predicate StartsMatch(s: string) {
    |s| > 2 && s[0] == '{' && s[1] == '{' && s[2] != '}' && Closes(s[2..])
  }

  /** No match of the expression begins anywhere in `s`. */
  predicate NoPlaceholder(s: string) {
    s == "" || (!StartsMatch(s) && NoPlaceholder(s[1..]))
  }

  /** The characters of `s` before its first '}'. */
  function Run(s: string): (run: string)
    ensures |run| <= |s| && run == s[..|run|]
    ensures '}' !in run
    ensures Closes(s) ==> |run| + 2 <= |s| && s[|run|] == '}' && s[|run| + 1] == '}'
  {
    if s == "" || s[0] == '}' then "" else
    assert s == [s[0]] + s[1..];
    [s[0]] + Run(s[1..])
  }

  datatype Token = Ch(c: char) | Hole(key: string)

  /** The leftmost, non-overlapping matches of the expression, with the text between them. */
  function Scan(s: string): seq<Token>
    decreases |s|
  {
    if s == "" then []
    else if StartsMatch(s) then
      var key := Run(s[2..]);
      [Hole(key)] + Scan(s[|key| + 4..])
    else
      [Ch(s[0])] + Scan(s[1..])
  }

  function Pattern(key: string): string { "{{" + key + "}}" }

  /** The text of a template in which the holes named by `env` have been filled. */
  function Render(t: seq<Token>, env: map<string, string>): string {
    if t == [] then ""
    else
      var first := match t[0]
                   case Ch(c) => [c]
                   case Hole(key) => if key in env then env[key] else Pattern(key);
      first + Render(t[1..], env)
  }

  /** The keys of the placeholders of `content`, in the order they are found. */
  function Placeholders(content: string): seq<string> {
    KeysOf(Scan(content))
  }

  function KeysOf(t: seq<Token>): seq<string> {
    if t == [] then []
    else (if t[0].Hole? then [t[0].key] else []) + KeysOf(t[1..])
  }

  lemma MatchIsPattern(s: string)
    requires StartsMatch(s)
    ensures var key := Run(s[2..]); |key| + 4 <= |s| && s == Pattern(key) + s[|key| + 4..]
  {
    var key := Run(s[2..]);
    assert s[2..|key| + 2] == key;
    assert s[..2] == "{{" && s[|key| + 2..|key| + 4] == "}}";
    assert s == s[..2] + s[2..|key| + 2] + s[|key| + 2..|key| + 4] + s[|key| + 4..];
  }

  lemma {:induction false} ScanKeepsText(s: string)
    ensures Render(Scan(s), map[]) == s
    decreases |s|
  {
    if s == "" {
    } else if StartsMatch(s) {
      MatchIsPattern(s);
      var key := Run(s[2..]);
      ScanKeepsText(s[|key| + 4..]);
      assert Scan(s)[0] == Hole(key) && Scan(s)[1..] == Scan(s[|key| + 4..]);
    } else {
      ScanKeepsText(s[1..]);
      assert Scan(s)[0] == Ch(s[0]) && Scan(s)[1..] == Scan(s[1..]);
    }
  }

  /** A match is a pattern of a non-empty key without '}'. */
  lemma MatchesIff(s: string)
    ensures StartsMatch(s) <==> exists key: string :: key != "" && '}' !in key && Pattern(key) <= s
  {
    if StartsMatch(s) {
      MatchIsPattern(s);
      var key := Run(s[2..]);
      assert s[2..] != "" && s[2..][0] == s[2] && key != "";
      assert Pattern(key) <= s;
    }
    if key: string :| key != "" && '}' !in key && Pattern(key) <= s {
      assert s[2..] == key + "}}" + s[|key| + 4..];
      ClosesAfter(key, s[|key| + 4..]);
      assert s[2] == key[0] && s[2] in key;
    }
  }

  lemma {:induction false} ClosesAfter(key: string, rest: string)
    requires '}' !in key
    ensures Closes(key + "}}" + rest)
  {
    if key == "" {
      assert key + "}}" + rest == "}}" + rest;
    } else {
      assert (key + "}}" + rest)[0] == key[0] && key[0] in key;
      assert (key + "}}" + rest)[1..] == key[1..] + "}}" + rest;
      ClosesAfter(key[1..], rest);
    }
  }

  /** The match that begins at position `p` ends here. */
  function EndOfMatch(s: string, p: nat): nat
    requires p < |s| && StartsMatch(s[p..])
  {
    p + |Pattern(Run(s[p..][2..]))|
  }

  /** The positions of the matches from `begin` on: each the first after the end of the one before, and none is left. */
  ghost predicate AreMatches(s: string, begin: nat, at: seq<nat>)
    decreases |at|
  {
    if at == [] then forall p | begin <= p < |s| :: !StartsMatch(s[p..])
    else
      && begin <= at[0] < |s| && StartsMatch(s[at[0]..])
      && (forall p | begin <= p < at[0] :: !StartsMatch(s[p..]))
      && AreMatches(s, EndOfMatch(s, at[0]), at[1..])
  }

  /** The keys of the matches at these positions. */
  ghost function KeysAt(s: string, begin: nat, at: seq<nat>): seq<string>
    requires AreMatches(s, begin, at)
    decreases |at|
  {
    if at == [] then [] else [Run(s[at[0]..][2..])] + KeysAt(s, EndOfMatch(s, at[0]), at[1..])
  }

  lemma NoMatchHere(s: string, begin: nat, at: seq<nat>)
    requires begin < |s| && !StartsMatch(s[begin..]) && AreMatches(s, begin + 1, at)
    ensures AreMatches(s, begin, at) && KeysAt(s, begin, at) == KeysAt(s, begin + 1, at)
  {
    hide StartsMatch;
  }

  lemma MatchHere(s: string, begin: nat, more: seq<nat>)
    requires begin < |s| && StartsMatch(s[begin..]) && AreMatches(s, EndOfMatch(s, begin), more)
    ensures AreMatches(s, begin, [begin] + more)
    ensures KeysAt(s, begin, [begin] + more) == [Run(s[begin..][2..])] + KeysAt(s, EndOfMatch(s, begin), more)
  {
    hide StartsMatch;
    assert ([begin] + more)[1..] == more;
  }

  /** The keys found are those of all matches from left to right, each begun behind the end of the last. */
  lemma {:induction false} PlaceholdersAreMatches(s: string, begin: nat) returns (at: seq<nat>)
    requires begin <= |s|
    ensures AreMatches(s, begin, at) && Placeholders(s[begin..]) == KeysAt(s, begin, at)
    decreases |s| - begin
  {
    if begin == |s| {
      at := [];
    } else {
      FirstPlaceholder(s, begin);
      hide *;
      if StartsMatch(s[begin..]) {
        var more := PlaceholdersAreMatches(s, EndOfMatch(s, begin));
        at := [begin] + more;
        MatchHere(s, begin, more);
      } else {
        at := PlaceholdersAreMatches(s, begin + 1);
        NoMatchHere(s, begin, at);
      }
    }
  }

  lemma FirstPlaceholder(s: string, begin: nat)
    requires begin < |s|
    ensures StartsMatch(s[begin..]) ==>
              && begin + 2 <= |s| && begin < EndOfMatch(s, begin) <= |s|
              && Placeholders(s[begin..]) == [Run(s[begin..][2..])] + Placeholders(s[EndOfMatch(s, begin)..])
    ensures !StartsMatch(s[begin..]) ==> Placeholders(s[begin..]) == Placeholders(s[begin + 1..])
  {
    var rest := s[begin..];
    if StartsMatch(rest) {
      MatchIsPattern(rest);
      var key := Run(rest[2..]);
      assert rest[|key| + 4..] == s[EndOfMatch(s, begin)..];
      assert Scan(rest)[0] == Hole(key) && Scan(rest)[1..] == Scan(s[EndOfMatch(s, begin)..]);
    } else {
      assert rest[1..] == s[begin + 1..];
      assert Scan(rest)[0] == Ch(rest[0]) && Scan(rest)[1..] == Scan(s[begin + 1..]);
    }
  }

  // ---------------------------------------------------------------------
  // Which values are safe to substitute
  // ---------------------------------------------------------------------

  predicate BraceFree(s: string) {
    '{' !in s && '}' !in s
  }

  predicate GoodKey(key: string) {
    key != "" && BraceFree(key)
  }

  /** Some continuation of `s` closes, in the sense of `Closes`. */
  predicate MayClose(s: string) {
    s == "" || if s[0] == '}' then |s| == 1 || s[1] == '}' else MayClose(s[1..])
  }

  /** A match may begin at the start of `s` once more text follows it. */
  predicate MayMatch(s: string) {
    |s| >= 2 && s[0] == '{' && s[1] == '{' && (|s| == 2 || s[2] != '}') && MayClose(s[2..])
  }

  predicate NoMatchMayBegin(s: string) {
    s == "" || (!MayMatch(s) && NoMatchMayBegin(s[1..]))
  }

  /**
   The values that can be substituted into every validated template: not empty,
   neither opening nor closing a placeholder with the text around them, and
   holding no placeholder that is or could become complete.
   */
  predicate Tame(v: string) {
    v != "" && v[0] != '}' && v[|v| - 1] != '{' && NoMatchMayBegin(v)
  }

  lemma {:induction false} BraceFreeIsTame(v: string)
    requires v != "" && BraceFree(v)
    ensures Tame(v)
  {
    if |v| > 1 {
      assert v[1..] != "" && BraceFree(v[1..]);
      BraceFreeIsTame(v[1..]);
    }
  }

  predicate TameValues(env: map<string, string>) {
    forall key <- env :: Tame(env[key])
  }

  /** The token list of a template whose holes have well-formed keys. */
  predicate Clean(t: seq<Token>) {
    t == [] || (
      && (match t[0]
          case Ch(_) => !StartsMatch(Render(t, map[]))
          case Hole(key) => GoodKey(key))
      && Clean(t[1..]))
  }

  lemma {:induction false} ScanIsClean(s: string)
    requires forall key <- Placeholders(s) :: GoodKey(key)
    ensures Clean(Scan(s))
    decreases |s|
  {
    if s == "" {
    } else if StartsMatch(s) {
      var key := Run(s[2..]);
      assert KeysOf(Scan(s)) == [key] + KeysOf(Scan(s[|key| + 4..]));
      assert key in Placeholders(s);
      ScanIsClean(s[|key| + 4..]);
    } else {
      ScanKeepsText(s);
      assert KeysOf(Scan(s)) == KeysOf(Scan(s[1..]));
      ScanIsClean(s[1..]);
    }
  }

  // ---------------------------------------------------------------------
  // Filling holes with tame values creates no match
  // ---------------------------------------------------------------------

  lemma {:induction false} ClosesOfSum(s: string, rest: string)
    ensures Closes(s + rest) ==> MayClose(s)
    ensures '}' !in s ==> Closes(s + "}}" + rest)
  {
    if s == "" {
      assert s + "}}" + rest == "}}" + rest;
    } else {
      assert (s + rest)[1..] == s[1..] + rest;
      assert (s + "}}" + rest)[1..] == s[1..] + "}}" + rest;
      ClosesOfSum(s[1..], rest);
    }
  }

  lemma {:induction false} FilledClosesOnlyIfTemplateDid(t: seq<Token>, env: map<string, string>)
    requires Clean(t) && TameValues(env)
    ensures Closes(Render(t, env)) ==> Closes(Render(t, map[]))
  {
    if t == [] {
    } else {
      var full, bare := Render(t, env), Render(t, map[]);
      var rest, bareRest := Render(t[1..], env), Render(t[1..], map[]);
      match t[0] {
        case Ch(c) =>
          assert full == [c] + rest && bare == [c] + bareRest;
          assert full[1..] == rest && bare[1..] == bareRest;
          if c == '}' && t[1..] != [] {
            assert t[1].Hole? && t[1].key in env ==> rest[0] == env[t[1].key][0];
          } else if c != '}' {
            FilledClosesOnlyIfTemplateDid(t[1..], env);
          }
        case Hole(key) =>
          assert bare == ("{{" + key) + "}}" + bareRest;
          ClosesOfSum("{{" + key, bareRest);
      }
    }
  }

  lemma LiteralMatchesOnlyIfTemplateDid(t: seq<Token>, env: map<string, string>)
    requires t != [] && t[0].Ch? && Clean(t[1..]) && TameValues(env)
    ensures StartsMatch(Render(t, env)) ==> StartsMatch(Render(t, map[]))
  {
    var u := t[1..];
    var full, bare := Render(t, env), Render(t, map[]);
    assert full == [t[0].c] + Render(u, env) && bare == [t[0].c] + Render(u, map[]);
    if StartsMatch(full) {
      if u[0].Hole? {
        HoleCloses(u, 1);
        assert bare[2..] == Render(u, map[])[1..];
      } else {
        var w := u[1..];
        assert full[2..] == Render(w, env) && bare[2..] == Render(w, map[]);
        FilledClosesOnlyIfTemplateDid(w, env);
        assert w[0].Hole? ==> Render(w, map[])[0] == '{';
      }
    }
  }

  lemma HoleCloses(t: seq<Token>, skip: nat)
    requires t != [] && t[0].Hole? && Clean(t) && skip <= 2
    ensures |Render(t, map[])| > skip && Closes(Render(t, map[])[skip..])
  {
    var head := "{{" + t[0].key;
    assert Render(t, map[]) == head + "}}" + Render(t[1..], map[]);
    ClosesOfSum(head[skip..], Render(t[1..], map[]));
    assert Render(t, map[])[skip..] == head[skip..] + "}}" + Render(t[1..], map[]);
  }

  lemma ValueStartsNoMatch(v: string, i: nat, rest: string)
    requires Tame(v) && i < |v|
    ensures !StartsMatch((v + rest)[i..])
  {
    var s := v[i..];
    assert (v + rest)[i..] == s + rest;
    SuffixBeginsNoMatch(v, i);
    if StartsMatch(s + rest) {
      assert |s| > 2 by {
        assert s[|s| - 1] == v[|v| - 1];
      }
      assert (s + rest)[2..] == s[2..] + rest;
      ClosesOfSum(s[2..], rest);
    }
  }

  lemma {:induction false} SuffixBeginsNoMatch(v: string, i: nat)
    requires NoMatchMayBegin(v) && i < |v|
    ensures !MayMatch(v[i..])
  {
    if i != 0 {
      assert v[1..][i - 1..] == v[i..];
      SuffixBeginsNoMatch(v[1..], i - 1);
    }
  }

  lemma HoleTextStartsOneMatch(key: string, i: nat, rest: string)
    requires GoodKey(key) && 0 < i < |Pattern(key)|
    ensures !StartsMatch((Pattern(key) + rest)[i..])
  {
    var s := (Pattern(key) + rest)[i..];
    if i == 1 {
      assert s[1] == key[0];
    } else if i < |key| + 2 {
      assert s[0] == key[i - 2];
    } else {
      assert s[0] == '}';
    }
  }

  // ---------------------------------------------------------------------
  // Replacing every occurrence of one pattern
  // ---------------------------------------------------------------------

  /** Go's strings.ReplaceAll for a non-empty `old`: leftmost, non-overlapping, not rescanned. */
  function ReplaceAll(s: string, old': string, new': string): string
    requires old' != ""
    decreases |s|
  {
    if s == "" then ""
    else if old' <= s then new' + ReplaceAll(s[|old'|..], old', new')
    else [s[0]] + ReplaceAll(s[1..], old', new')
  }

  lemma {:induction false} ReplaceSkips(u: string, rest: string, old': string, new': string)
    requires old' != ""
    requires forall i: nat :: i < |u| ==> !(old' <= (u + rest)[i..])
    ensures ReplaceAll(u + rest, old', new') == u + ReplaceAll(rest, old', new')
  {
    if u == "" {
      assert u + rest == rest;
    } else {
      var s := u + rest;
      assert s[0..] == s;
      assert s[1..] == u[1..] + rest;
      forall i: nat | i < |u[1..]| ensures !(old' <= (u[1..] + rest)[i..]) {
        assert s[1..][i..] == s[i + 1..];
      }
      ReplaceSkips(u[1..], rest, old', new');
      ReplaceSkipsOne(s, old', new');
      hide ReplaceAll;
      assert [u[0]] + (u[1..] + ReplaceAll(rest, old', new')) == u + ReplaceAll(rest, old', new');
    }
  }

  lemma ReplaceSkipsOne(s: string, old': string, new': string)
    requires old' != "" && s != "" && !(old' <= s)
    ensures ReplaceAll(s, old', new') == [s[0]] + ReplaceAll(s[1..], old', new')
  {
  }

  lemma PatternIsMatch(key: string, s: string)
    requires GoodKey(key) && Pattern(key) <= s
    ensures StartsMatch(s) && Run(s[2..]) == key
  {
    var rest := s[|Pattern(key)|..];
    assert s == Pattern(key) + rest;
    assert s[2..] == key + "}}" + rest;
    assert s[2] == key[0];
    ClosesOfSum(key, rest);
    RunOfSum(key, rest);
  }

  lemma {:induction false} RunOfSum(key: string, rest: string)
    requires '}' !in key
    ensures Run(key + "}}" + rest) == key
  {
    if key == "" {
      assert key + "}}" + rest == "}}" + rest;
    } else {
      assert (key + "}}" + rest)[1..] == key[1..] + "}}" + rest;
      RunOfSum(key[1..], rest);
    }
  }

  /** One step of the substitution loop fills exactly the holes named `key`. */
  lemma {:induction false} ReplaceFillsHoles(t: seq<Token>, env: map<string, string>, key: string, value: string)
    requires Clean(t) && TameValues(env) && GoodKey(key)
    requires key in env ==> env[key] == value
    ensures ReplaceAll(Render(t, env), Pattern(key), value) == Render(t, env[key := value])
  {
    if t == [] {
    } else {
      var old' := Pattern(key);
      var rest := Render(t[1..], env);
      ReplaceFillsHoles(t[1..], env, key, value);
      var s := Render(t, env);
      if t[0] == Hole(key) && key !in env {
        assert s == old' + rest && s[|old'|..] == rest;
      } else {
        var u := if t[0].Ch? then [t[0].c] else if t[0].key in env then env[t[0].key] else Pattern(t[0].key);
        assert s == u + rest;
        forall i: nat | i < |u| ensures !(old' <= (u + rest)[i..]) {
          NoOccurrenceInside(t, env, key, u, rest, i);
        }
        ReplaceSkips(u, rest, old', value);
      }
    }
  }

  lemma NoOccurrenceInside(t: seq<Token>, env: map<string, string>, key: string, u: string, rest: string, i: nat)
    requires t != [] && Clean(t) && TameValues(env) && GoodKey(key)
    requires u == if t[0].Ch? then [t[0].c] else if t[0].key in env then env[t[0].key] else Pattern(t[0].key)
    requires rest == Render(t[1..], env) && i < |u|
    requires t[0] != Hole(key) || key in env
    ensures !(Pattern(key) <= (u + rest)[i..])
  {
    var s := (u + rest)[i..];
    assert Render(t, env) == u + rest;
    if t[0].Ch? {
      LiteralMatchesOnlyIfTemplateDid(t, env);
      assert s == Render(t, env);
    } else if t[0].key in env {
      ValueStartsNoMatch(u, i, rest);
    } else if i != 0 {
      HoleTextStartsOneMatch(t[0].key, i, rest);
    } else {
      assert Pattern(t[0].key) <= s;
      PatternIsMatch(t[0].key, s);
    }
    if Pattern(key) <= s {
      PatternIsMatch(key, s);
    }
  }

  // ---------------------------------------------------------------------
  // substituteParams
  // ---------------------------------------------------------------------

  datatype ParamDef = ParamDef(key: string, default: string)

  type Schema = seq<ParamDef>

  function Declared(schema: Schema): set<string> {
    set i | 0 <= i < |schema| :: schema[i].key
  }

  /** The override when it is present and not empty, else the default of the first declaration. */
  function GetParam(schema: Schema, params: map<string, string>, key: string): string
    requires key in Declared(schema)
  {
    if schema[0].key == key then
      if key in params && params[key] != "" then params[key] else schema[0].default
    else
      assert key in Declared(schema[1..]) by {
        var i :| 0 <= i < |schema| && schema[i].key == key;
        assert schema[1..][i - 1].key == key;
      }
      GetParam(schema[1..], params, key)
  }

  lemma {:induction false} GetParamIsFirstMatch(schema: Schema, params: map<string, string>, key: string) returns (i: nat)
    requires key in Declared(schema)
    ensures i < |schema| && schema[i].key == key && forall j | 0 <= j < i :: schema[j].key != key
    ensures GetParam(schema, params, key)
            == if key in params && params[key] != "" then params[key] else schema[i].default
  {
    if schema[0].key == key {
      i := 0;
    } else {
      var k :| 0 <= k < |schema| && schema[k].key == key;
      assert schema[1..][k - 1].key == key;
      var rest := GetParamIsFirstMatch(schema[1..], params, key);
      i := rest + 1;
      assert forall j | 0 < j < i :: schema[j] == schema[1..][j - 1];
    }
  }

  /** The resolved value of every declared key. */
  function Resolved(schema: Schema, params: map<string, string>): (env: map<string, string>)
    ensures env.Keys == Declared(schema)
  {
    map key <- Declared(schema) :: GetParam(schema, params, key)
  }

  /** All placeholders replaced at once. */
  function FillAtOnce(content: string, env: map<string, string>): string {
    Render(Scan(content), env)
  }

  predicate GoodSchema(schema: Schema) {
    forall key <- Declared(schema) :: GoodKey(key)
  }

  /** Every placeholder of the content is declared: what `ValidatePlaceholders` asks of it. */
  predicate Validated(schema: Schema, content: string) {
    forall key <- Placeholders(content) :: key in Declared(schema)
  }

  /** The content after the loop of substituteParams has run over the first `n` declarations. */
  function SubstituteFirst(schema: Schema, params: map<string, string>, template: string, n: nat): string
    requires n <= |schema|
  {
    if n == 0 then template
    else
      var key := schema[n - 1].key;
      assert key in Declared(schema);
      ReplaceAll(SubstituteFirst(schema, params, template, n - 1), Pattern(key), GetParam(schema, params, key))
  }

  function Substituted(schema: Schema, params: map<string, string>, template: string): string {
    SubstituteFirst(schema, params, template, |schema|)
  }

  method SubstituteParams(schema: Schema, params: map<string, string>, template: string) returns (content: string)
    ensures content == Substituted(schema, params, template)
    ensures GoodSchema(schema) && Validated(schema, template) && TameValues(Resolved(schema, params)) ==>
              && content == FillAtOnce(template, Resolved(schema, params))
              && NoPlaceholder(content)
  {
    content := template;
    for n := 0 to |schema|
      invariant content == SubstituteFirst(schema, params, template, n)
    {
      var key := schema[n].key;
      assert key in Declared(schema);
      content := ReplaceAll(content, Pattern(key), GetParam(schema, params, key));
    }
    if GoodSchema(schema) && Validated(schema, template) && TameValues(Resolved(schema, params)) {
      SequentialIsSimultaneous(schema, params, template);
    }
  }

  function Restrict(env: map<string, string>, keys: set<string>): map<string, string> {
    map key <- env | key in keys :: env[key]
  }

  lemma NothingFilledYet(schema: Schema, params: map<string, string>, template: string)
    ensures SubstituteFirst(schema, params, template, 0)
            == Render(Scan(template), Restrict(Resolved(schema, params), Declared(schema[..0])))
  {
    ScanKeepsText(template);
    assert Restrict(Resolved(schema, params), Declared(schema[..0])) == map[];
  }

  lemma {:induction false} FirstFillsDeclared(schema: Schema, params: map<string, string>, template: string, n: nat)
    requires GoodSchema(schema) && Validated(schema, template) && TameValues(Resolved(schema, params))
    requires n <= |schema|
    ensures SubstituteFirst(schema, params, template, n)
            == Render(Scan(template), Restrict(Resolved(schema, params), Declared(schema[..n])))
  {
    hide Restrict, Declared, SubstituteFirst, Render, Scan, Clean, GoodKey, GoodSchema, Tame, TameValues, ReplaceAll, Resolved,
         GetParam, Validated;
    if n == 0 {
      NothingFilledYet(schema, params, template);
    } else {
      var env, key := Resolved(schema, params), schema[n - 1].key;
      FirstFillsDeclared(schema, params, template, n - 1);
      SubstituteNext(schema, params, template, n);
      ValidatedIsClean(schema, template);
      KeyIsGood(schema, params, key);
      RestrictNext(schema, env, n);
      FilledIsTame(env, Declared(schema[..n - 1]));
      ReplaceFillsHoles(Scan(template), Restrict(env, Declared(schema[..n - 1])), key, env[key]);
    }
  }

  lemma SubstituteNext(schema: Schema, params: map<string, string>, template: string, n: nat)
    requires 0 < n <= |schema|
    ensures schema[n - 1].key in Resolved(schema, params)
    ensures var key := schema[n - 1].key;
            SubstituteFirst(schema, params, template, n)
            == ReplaceAll(SubstituteFirst(schema, params, template, n - 1), Pattern(key), Resolved(schema, params)[key])
  {
  }

  lemma KeyIsGood(schema: Schema, params: map<string, string>, key: string)
    requires GoodSchema(schema) && TameValues(Resolved(schema, params)) && key in Declared(schema)
    ensures GoodKey(key) && Tame(Resolved(schema, params)[key])
  {
  }

  lemma RestrictNext(schema: Schema, env: map<string, string>, n: nat)
    requires 0 < n <= |schema| && schema[n - 1].key in env
    ensures var key := schema[n - 1].key;
            Restrict(env, Declared(schema[..n])) == Restrict(env, Declared(schema[..n - 1]))[key := env[key]]
  {
    DeclaredNext(schema, n - 1);
    hide Declared;
  }

  lemma FilledIsTame(env: map<string, string>, keys: set<string>)
    requires TameValues(env)
    ensures var filled := Restrict(env, keys);
            TameValues(filled) && forall key <- filled :: key in env && filled[key] == env[key]
  {
  }

  lemma ValidatedIsClean(schema: Schema, template: string)
    requires GoodSchema(schema) && Validated(schema, template)
    ensures Clean(Scan(template))
  {
    ScanIsClean(template);
  }

  lemma SequentialIsSimultaneous(schema: Schema, params: map<string, string>, template: string)
    requires GoodSchema(schema) && Validated(schema, template) && TameValues(Resolved(schema, params))
    ensures Substituted(schema, params, template) == FillAtOnce(template, Resolved(schema, params))
    ensures NoPlaceholder(Substituted(schema, params, template))
  {
    var env := Resolved(schema, params);
    FirstFillsDeclared(schema, params, template, |schema|);
    assert schema[..|schema|] == schema;
    assert Restrict(env, Declared(schema)) == env;
    ScanIsClean(template);
    FilledHasNoPlaceholder(Scan(template), env);
  }

  /** The order of the declarations does not matter, only what they resolve to. */
  lemma OrderDoesNotMatter(schema: Schema, schema': Schema, params: map<string, string>, template: string)
    requires GoodSchema(schema) && Validated(schema, template) && TameValues(Resolved(schema, params))
    requires Resolved(schema', params) == Resolved(schema, params)
    ensures Substituted(schema', params, template) == Substituted(schema, params, template)
  {
    assert Declared(schema') == Declared(schema);
    SequentialIsSimultaneous(schema, params, template);
    SequentialIsSimultaneous(schema', params, template);
  }

  lemma DeclaredNext(schema: Schema, n: nat)
    requires n < |schema|
    ensures Declared(schema[..n + 1]) == Declared(schema[..n]) + {schema[n].key}
  {
    forall key | key in Declared(schema[..n + 1])
      ensures key in Declared(schema[..n]) + {schema[n].key}
    {
      var i :| 0 <= i < n + 1 && schema[..n + 1][i].key == key;
      assert i < n ==> schema[..n][i].key == key;
    }
    forall key | key in Declared(schema[..n]) + {schema[n].key}
      ensures key in Declared(schema[..n + 1])
    {
      if key in Declared(schema[..n]) {
        var i :| 0 <= i < n && schema[..n][i].key == key;
        assert schema[..n + 1][i].key == key;
      } else {
        assert schema[..n + 1][n].key == key;
      }
    }
  }

  lemma {:induction false} NoPlaceholderSum(u: string, rest: string)
    requires NoPlaceholder(rest)
    requires forall i: nat :: i < |u| ==> !StartsMatch((u + rest)[i..])
    ensures NoPlaceholder(u + rest)
  {
    if u == "" {
      assert u + rest == rest;
    } else {
      var s := u + rest;
      assert s[0..] == s && s[1..] == u[1..] + rest;
      forall i: nat | i < |u[1..]| ensures !StartsMatch((u[1..] + rest)[i..]) {
        assert s[1..][i..] == s[i + 1..];
      }
      NoPlaceholderSum(u[1..], rest);
    }
  }

  lemma {:induction false} FilledHasNoPlaceholder(t: seq<Token>, env: map<string, string>)
    requires Clean(t) && TameValues(env)
    requires forall key <- KeysOf(t) :: key in env
    ensures NoPlaceholder(Render(t, env))
  {
    if t == [] {
    } else {
      assert KeysOf(t) == (if t[0].Hole? then [t[0].key] else []) + KeysOf(t[1..]);
      FilledHasNoPlaceholder(t[1..], env);
      var rest := Render(t[1..], env);
      assert t[0].Hole? ==> t[0].key in KeysOf(t);
      var u := if t[0].Ch? then [t[0].c] else env[t[0].key];
      assert Render(t, env) == u + rest;
      forall i: nat | i < |u| ensures !StartsMatch((u + rest)[i..]) {
        if t[0].Ch? {
          LiteralMatchesOnlyIfTemplateDid(t, env);
          assert (u + rest)[i..] == Render(t, env);
        } else {
          ValueStartsNoMatch(u, i, rest);
        }
      }
      NoPlaceholderSum(u, rest);
    }
  }

  // ---------------------------------------------------------------------
  // Exactly which values are safe in every validated template
  // ---------------------------------------------------------------------

  ghost predicate SafeInEveryTemplate(schema: Schema, params: map<string, string>) {
    forall template :: Validated(schema, template) ==>
      && Substituted(schema, params, template) == FillAtOnce(template, Resolved(schema, params))
      && NoPlaceholder(FillAtOnce(template, Resolved(schema, params)))
  }

  lemma SafeIffTame(schema: Schema, params: map<string, string>)
    requires GoodSchema(schema)
    ensures SafeInEveryTemplate(schema, params) <==> TameValues(Resolved(schema, params))
  {
    var env := Resolved(schema, params);
    if TameValues(env) {
      forall template | Validated(schema, template)
        ensures Substituted(schema, params, template) == FillAtOnce(template, env)
        ensures NoPlaceholder(FillAtOnce(template, env))
      {
        SequentialIsSimultaneous(schema, params, template);
      }
    } else {
      var key :| key in env && !Tame(env[key]);
      assert GoodKey(key);
      var template := Spoiler(key, env);
      assert Validated(schema, template);
      assert !NoPlaceholder(FillAtOnce(template, env));
    }
  }

  // ---------------------------------------------------------------------
  // Keys that no placeholder can name
  // ---------------------------------------------------------------------

  lemma {:induction false} NothingToFill(s: string, env: map<string, string>)
    requires NoPlaceholder(s)
    ensures Placeholders(s) == [] && FillAtOnce(s, env) == s
  {
    if s != "" {
      NothingToFill(s[1..], env);
      ScanOneChar(s);
      OneCharInert(s[0], Scan(s[1..]), env);
      assert [s[0]] + s[1..] == s;
    }
  }

  lemma {:induction false} RunCloses(key: string)
    requires '}' !in key
    ensures Closes(key + "}}")
  {
    if key != "" {
      assert (key + "}}")[1..] == key[1..] + "}}";
      RunCloses(key[1..]);
    }
  }

  /** A key that is found in some text is one that its own pattern would match. */
  lemma {:induction false} FoundKeysMatch(s: string)
    ensures forall key <- Placeholders(s) :: !NoPlaceholder(Pattern(key))
    ensures Placeholders(s) == [] ==> NoPlaceholder(s)
    decreases |s|
  {
    if s != "" {
      if StartsMatch(s) {
        var key := Run(s[2..]);
        MatchIsPattern(s);
        FoundKeysMatch(s[|key| + 4..]);
        RunCloses(key);
        assert s[2] == key[0] by {
          assert s[2..][0] == s[2];
        }
        assert Pattern(key)[2..] == key + "}}";
        assert Placeholders(s) == [key] + Placeholders(s[|key| + 4..]) by {
          assert Scan(s)[1..] == Scan(s[|key| + 4..]);
        }
      } else {
        FoundKeysMatch(s[1..]);
        ScanOneChar(s);
        OneCharInert(s[0], Scan(s[1..]), map[]);
      }
    }
  }

  lemma {:induction false} ReplaceByItself(s: string, p: string)
    requires p != ""
    ensures ReplaceAll(s, p, p) == s
    decreases |s|
  {
    if s != "" {
      if p <= s {
        ReplaceByItself(s[|p|..], p);
        assert p + s[|p|..] == s;
      } else {
        ReplaceByItself(s[1..], p);
        assert [s[0]] + s[1..] == s;
      }
    }
  }

  /**
   A key whose pattern the expression never matches, such as the empty one, is
   replaced all the same where its pattern stands as plain text: that is safe
   only when the value is the pattern itself.
   */
  lemma UnmatchedKeySafeIff(def: ParamDef, params: map<string, string>)
    requires NoPlaceholder(Pattern(def.key))
    ensures SafeInEveryTemplate([def], params) <==> Resolved([def], params) == map[def.key := Pattern(def.key)]
  {
    var schema, key := [def], def.key;
    assert Declared(schema) == {key} by {
      assert schema[0].key == key;
    }
    var value, pattern := GetParam(schema, params, key), Pattern(key);
    var env := Resolved(schema, params);
    assert env == map[key := value];
    if value == pattern {
      forall template | Validated(schema, template)
        ensures Substituted(schema, params, template) == FillAtOnce(template, env) && NoPlaceholder(FillAtOnce(template, env))
      {
        FoundKeysMatch(template);
        FirstIsIn(Placeholders(template));
        NothingToFill(template, env);
        ReplaceByItself(template, pattern);
        SubstitutedByOne(def, params, template);
      }
    } else {
      NothingToFill(pattern, env);
      SubstitutedByOne(def, params, pattern);
      ReplaceWhole(pattern, value);
      assert Validated(schema, pattern);
    }
  }

  lemma FirstIsIn(keys: seq<string>)
    ensures keys == [] || keys[0] in keys
  {
  }

  lemma SubstitutedByOne(def: ParamDef, params: map<string, string>, template: string)
    requires def.key in Declared([def])
    ensures Substituted([def], params, template)
            == ReplaceAll(template, Pattern(def.key), GetParam([def], params, def.key))
  {
    assert SubstituteFirst([def], params, template, 0) == template;
  }

  lemma ReplaceWhole(p: string, value: string)
    requires p != ""
    ensures ReplaceAll(p, p, value) == value
  {
    assert p[|p|..] == "";
  }

  lemma OtherPatternStays(a: string, b: string, value: string)
    requires GoodKey(a) && GoodKey(b) && a != b
    ensures ReplaceAll(Pattern(a), Pattern(b), value) == Pattern(a)
  {
    var s := Pattern(a);
    forall i: nat | i < |s| ensures !(Pattern(b) <= (s + "")[i..]) {
      assert s + "" == s && s[0..] == s;
      assert Pattern(b)[0] == '{' && Pattern(b)[1] == '{';
      if i == 0 && Pattern(b) <= s {
        PatternIsMatch(a, s);
        PatternIsMatch(b, s);
      } else if i == 1 {
        assert s[i..][1] == a[0] && a[0] in a;
      } else if 2 <= i < |a| + 2 {
        assert s[i] == a[i - 2] && a[i - 2] in a;
      }
    }
    ReplaceSkips(s, "", Pattern(b), value);
    assert s + "" == s;
  }

  lemma TwoSteps(p: ParamDef, q: ParamDef, template: string)
    requires p.key != q.key
    ensures Substituted([p, q], map[], template)
            == ReplaceAll(ReplaceAll(template, Pattern(p.key), p.default), Pattern(q.key), q.default)
  {
    var schema := [p, q];
    assert schema[0].key in Declared(schema) && schema[1].key in Declared(schema);
    assert schema[1..] == [q];
    assert GetParam(schema, map[], p.key) == p.default && GetParam(schema, map[], q.key) == q.default;
    assert SubstituteFirst(schema, map[], template, 0) == template;
    assert SubstituteFirst(schema, map[], template, 1) == ReplaceAll(template, Pattern(p.key), p.default);
  }

  /** Where values are not tame the order of the declarations counts: a later key is found in an earlier value. */
  lemma EarlierValuesAreSearched(a: string, b: string, value: string)
    requires GoodKey(a) && GoodKey(b) && a != b
    ensures var first, second := ParamDef(a, Pattern(b)), ParamDef(b, value);
            && Substituted([first, second], map[], Pattern(a)) == value
            && Substituted([second, first], map[], Pattern(a)) == Pattern(b)
  {
    var first, second := ParamDef(a, Pattern(b)), ParamDef(b, value);
    TwoSteps(first, second, Pattern(a));
    TwoSteps(second, first, Pattern(a));
    OtherPatternStays(a, b, value);
    ReplaceWhole(Pattern(a), Pattern(b));
    ReplaceWhole(Pattern(b), value);
  }

  /** The empty key is one of them. */
  lemma EmptyKeyIsUnmatched()
    ensures NoPlaceholder(Pattern(""))
  {
    assert Pattern("") == "{{}}" && "{{}}"[1..] == "{}}" && "{}}"[1..] == "}}" && "}}"[1..] == "}";
  }

  lemma {:induction false} PlaceholderAt(s: string, i: nat)
    requires i < |s| && StartsMatch(s[i..])
    ensures !NoPlaceholder(s)
  {
    if i == 0 {
      assert s[0..] == s;
    } else {
      assert s[1..][i - 1..] == s[i..];
      PlaceholderAt(s[1..], i - 1);
    }
  }

  function Literal(u: string): (t: seq<Token>)
    ensures |t| == |u|
  {
    seq(|u|, i requires 0 <= i < |u| => Ch(u[i]))
  }

  lemma OneCharInert(c: char, t: seq<Token>, env: map<string, string>)
    ensures KeysOf([Ch(c)] + t) == KeysOf(t)
    ensures Render([Ch(c)] + t, env) == [c] + Render(t, env)
  {
    assert ([Ch(c)] + t)[1..] == t;
  }

  lemma {:induction false} LiteralInert(u: string, t: seq<Token>, env: map<string, string>)
    ensures KeysOf(Literal(u) + t) == KeysOf(t)
    ensures Render(Literal(u) + t, env) == u + Render(t, env)
  {
    hide Render, KeysOf;
    if u == "" {
      assert Literal(u) + t == t;
    } else {
      assert Literal(u) + t == [Ch(u[0])] + (Literal(u[1..]) + t);
      OneCharInert(u[0], Literal(u[1..]) + t, env);
      LiteralInert(u[1..], t, env);
      assert [u[0]] + (u[1..] + Render(t, env)) == u + Render(t, env);
    }
  }

  lemma ScanOneChar(s: string)
    requires s != "" && !StartsMatch(s)
    ensures Scan(s) == [Ch(s[0])] + Scan(s[1..])
  {
  }

  lemma {:induction false} ScanLiteral(u: string, rest: string)
    requires forall i: nat :: i < |u| ==> !StartsMatch((u + rest)[i..])
    ensures Scan(u + rest) == Literal(u) + Scan(rest)
  {
    hide StartsMatch, Scan;
    if u == "" {
      assert u + rest == rest && Literal(u) == [];
    } else {
      var s := u + rest;
      assert s[0..] == s && s[1..] == u[1..] + rest;
      forall i: nat | i < |u[1..]| ensures !StartsMatch((u[1..] + rest)[i..]) {
        assert s[1..][i..] == s[i + 1..];
      }
      ScanOneChar(s);
      ScanLiteral(u[1..], rest);
      assert Literal(u) == [Ch(u[0])] + Literal(u[1..]);
    }
  }

  lemma PostIsLiteral(post: string)
    requires post in {"", "}", "}}", "{q}}"}
    ensures Scan(post) == Literal(post)
  {
    assert post + "" == post;
    ScanLiteral(post, "");
    assert Literal(post) + [] == Literal(post);
  }

  lemma PreIsLiteral(pre: string, key: string, post: string)
    requires pre == "" || pre == "{{q}"
    ensures Scan(pre + (Pattern(key) + post)) == Literal(pre) + Scan(Pattern(key) + post)
  {
    var hole := Pattern(key) + post;
    forall i: nat | i < |pre| ensures !StartsMatch((pre + hole)[i..]) {
      var s := (pre + hole)[i..];
      if i == 0 {
        assert s[2..] == "q}" + hole;
        assert s[2..][1..] == "}" + hole;
        assert hole[0] == '{';
        assert !Closes(s[2..][1..]);
        assert !Closes(s[2..]);
      } else {
        assert s[0] == pre[i] && (i == 1 ==> s[1] == pre[2]);
      }
    }
    ScanLiteral(pre, hole);
  }

  lemma OneHole(pre: string, key: string, post: string, env: map<string, string>)
    requires GoodKey(key) && key in env
    requires pre == "" || pre == "{{q}"
    requires post in {"", "}", "}}", "{q}}"}
    ensures Placeholders(pre + (Pattern(key) + post)) == [key]
    ensures FillAtOnce(pre + (Pattern(key) + post), env) == pre + (env[key] + post)
  {
    hide Scan;
    var hole := Pattern(key) + post;
    PreIsLiteral(pre, key, post);
    HoleThenLiteral(key, post);
    LiteralInert(pre, Scan(hole), env);
    LiteralInert(post, [], env);
    assert Literal(post) + [] == Literal(post);
    assert Scan(hole)[1..] == Literal(post);
  }

  lemma HoleThenLiteral(key: string, post: string)
    requires GoodKey(key)
    requires post in {"", "}", "}}", "{q}}"}
    ensures Scan(Pattern(key) + post) == [Hole(key)] + Literal(post)
  {
    var hole := Pattern(key) + post;
    PostIsLiteral(post);
    PatternIsMatch(key, hole);
    assert hole[|key| + 4..] == post;
  }

  /** Text that completes a match begun in `s`. */
  function Completion(s: string): (post: string)
    requires MayClose(s)
    ensures post in {"", "}", "}}"}
    ensures Closes(s + post)
  {
    if s == "" then "}}"
    else if s[0] == '}' then if |s| == 1 then "}" else ""
    else
      var post := Completion(s[1..]);
      assert (s + post)[1..] == s[1..] + post;
      post
  }

  ghost function FirstMayMatch(v: string): (i: nat)
    requires !NoMatchMayBegin(v)
    ensures i < |v| && MayMatch(v[i..])
  {
    if MayMatch(v) then 0
    else
      var i := FirstMayMatch(v[1..]);
      assert v[i + 1..] == v[1..][i..];
      i + 1
  }

  /** A validated template that the untame value of `key` turns into text with a placeholder. */
  lemma Spoiler(key: string, env: map<string, string>) returns (template: string)
    requires GoodKey(key) && key in env && !Tame(env[key])
    ensures Placeholders(template) == [key]
    ensures !NoPlaceholder(FillAtOnce(template, env))
  {
    var v := env[key];
    var pre, post, i := SpoilingContext(v);
    OneHole(pre, key, post, env);
    PlaceholderAt(pre + (v + post), i);
    template := pre + (Pattern(key) + post);
  }

  lemma SpoilingContext(v: string) returns (pre: string, post: string, i: nat)
    requires !Tame(v)
    ensures pre == "" || pre == "{{q}"
    ensures post in {"", "}", "}}", "{q}}"}
    ensures var s := pre + (v + post); i < |s| && StartsMatch(s[i..])
  {
    if v == "" || v[0] == '}' {
      pre, post, i := "{{q}", if v == "" then "}" else "", 0;
      var rest := (v + post)[1..];
      PlaceholderQ(rest);
      assert v + post == "}" + rest;
      assert (pre + (v + post))[0..] == "{{q}}" + rest;
    } else if v[|v| - 1] == '{' {
      pre, post, i := "", "{q}}", |v| - 1;
      PlaceholderQ("");
      assert (pre + (v + post))[i..] == "{{q}}" + "";
    } else {
      i := FirstMayMatch(v);
      post := CompletedMatch(v, i);
      pre := "";
      assert pre + (v + post) == v + post;
    }
  }

  lemma PlaceholderQ(rest: string)
    ensures StartsMatch("{{q}}" + rest)
  {
    var s := "{{q}}" + rest;
    assert s[2..] == "q}}" + rest;
    assert s[2..][1..] == "}}" + rest;
  }

  lemma CompletedMatch(v: string, i: nat) returns (post: string)
    requires i < |v| && MayMatch(v[i..]) && v[|v| - 1] != '{'
    ensures post in {"", "}", "}}"}
    ensures StartsMatch((v + post)[i..])
  {
    var s := v[i..];
    assert s[|s| - 1] == v[|v| - 1];
    post := Completion(s[2..]);
    assert (v + post)[i..] == s + post;
    assert (s + post)[2..] == s[2..] + post;
  }

  // ---------------------------------------------------------------------
  // ValidatePlaceholders
  // ---------------------------------------------------------------------

  datatype PlaceholderError = PlaceholderError(key: string, file: string)

  /**
   Errors are kept as a multiset and warnings as a set: the code sorts both lists
   before it returns them, so only their contents are observable.
   */
  method ValidatePlaceholders(schema: Schema, files: map<string, string>)
    returns (errs: multiset<PlaceholderError>, warnings: set<string>)
    ensures forall e :: errs[e] == if e.file in files && e.key !in Declared(schema)
                                   then multiset(Placeholders(files[e.file]))[e.key] else 0
    ensures warnings == set key <- Declared(schema) |
                          forall file <- files :: key !in Placeholders(files[file])
    ensures errs == multiset{} <==> forall file <- files :: Validated(schema, files[file])
  {
    hide Placeholders, Validated;
    var declaredKeys := Declared(schema);
    hide Declared;
    var usedKeys: set<string> := {};
    errs := multiset{};
    var todo := files.Keys;
    while todo != {}
      invariant todo <= files.Keys
      invariant forall e :: errs[e] == if e.file in files.Keys - todo && e.key !in declaredKeys
                                       then multiset(Placeholders(files[e.file]))[e.key] else 0
      invariant usedKeys == UsedKeys(files, files.Keys - todo)
    {
      var name :| name in todo;
      var fileErrs := CheckFile(declaredKeys, name, Placeholders(files[name]));
      errs := errs + fileErrs;
      usedKeys := usedKeys + set key <- Placeholders(files[name]);
      ghost var before := files.Keys - todo;
      todo := todo - {name};
      assert files.Keys - todo == before + {name};
    }
    assert files.Keys - todo == files.Keys;
    warnings := set key <- declaredKeys | key !in usedKeys;
    NoErrorsIffValidated(schema, files, errs);
  }

  ghost function UsedKeys(files: map<string, string>, names: set<string>): set<string>
    requires names <= files.Keys
  {
    set file <- names, key <- Placeholders(files[file]) :: key
  }

  method CheckFile(declaredKeys: set<string>, name: string, found: seq<string>) returns (errs: multiset<PlaceholderError>)
    ensures forall e :: errs[e] == if e.file == name && e.key !in declaredKeys then multiset(found)[e.key] else 0
  {
    errs := multiset{};
    for n := 0 to |found|
      invariant forall e :: errs[e] == if e.file == name && e.key !in declaredKeys
                                       then multiset(found[..n])[e.key] else 0
    {
      assert found[..n + 1] == found[..n] + [found[n]];
      if found[n] !in declaredKeys {
        errs := errs + multiset{PlaceholderError(found[n], name)};
      }
    }
    assert found[..|found|] == found;
  }

  lemma NoErrorsIffValidated(schema: Schema, files: map<string, string>, errs: multiset<PlaceholderError>)
    requires forall e :: errs[e] == if e.file in files && e.key !in Declared(schema)
                                    then multiset(Placeholders(files[e.file]))[e.key] else 0
    ensures errs == multiset{} <==> forall file <- files :: Validated(schema, files[file])
  {
    if errs == multiset{} {
      forall file <- files, key <- Placeholders(files[file]) ensures key in Declared(schema) {
        assert errs[PlaceholderError(key, file)] == 0;
        assert multiset(Placeholders(files[file]))[key] > 0;
      }
    } else {
      var e :| e in errs;
      assert e.key in Placeholders(files[e.file]);
    }
  }
}
