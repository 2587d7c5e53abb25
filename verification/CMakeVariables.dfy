/** Expansion of `${name}` references in tools/codegraph.py, on raw text. */
module CMakeVariables {
  import opened Text

  type Env = map<string, string>

  const ROUNDS := 20

  /** Length of the reference that begins `text`: `${`, a non-empty name without `}`, `}`. */
  function RefLength(text: string): (n: Option<nat>)
    ensures n.Some? ==> 4 <= n.value <= |text| && text[0] == '$' && text[1] == '{' && text[n.value - 1] == '}'
  {
    if |text| >= 2 && text[0] == '$' && text[1] == '{' then
      var close := IndexFrom(text, '}', 2);
      if 2 < close < |text| then Some(close + 1) else None
    else None
  }

  function RefName(text: string, n: nat): string
    requires 4 <= n <= |text|
  {
    text[2..n - 1]
  }

  /** One simultaneous substitution: undefined references stay as they are. */
  function Round(text: string, env: Env): string
    decreases |text|
  {
    if text == "" then ""
    else
      match RefLength(text)
      case Some(n) =>
        (if RefName(text, n) in env then env[RefName(text, n)] else text[..n]) + Round(text[n..], env)
      case None => [text[0]] + Round(text[1..], env)
  }

  function Rounds(text: string, env: Env, k: nat): string {
    if k == 0 then text else Round(Rounds(text, env, k - 1), env)
  }

  function Expand(text: string, env: Env): string {
    Rounds(text, env, ROUNDS)
  }

  /** The names referred to, left to right. */
  function Refs(text: string): seq<string>
    decreases |text|
  {
    if text == "" then []
    else
      match RefLength(text)
      case Some(n) => [RefName(text, n)] + Refs(text[n..])
      case None => Refs(text[1..])
  }

  lemma {:induction false} FixedStaysFixed(text: string, env: Env, k: nat, m: nat)
    requires k <= m && Round(Rounds(text, env, k), env) == Rounds(text, env, k)
    ensures Rounds(text, env, m) == Rounds(text, env, k)
    decreases m - k
  {
    if k < m {
      FixedStaysFixed(text, env, k, m - 1);
    }
  }

  /** The loop stops at the first fixed round, or after twenty rounds; either way its result is the
      twentieth round. */
  method ExpandVariables(value: string, variables: Env) returns (expanded: string)
    ensures expanded == Expand(value, variables)
    ensures exists k: nat :: k <= ROUNDS && expanded == Rounds(value, variables, k) &&
              (k < ROUNDS ==> Round(expanded, variables) == expanded) &&
              forall j :: 0 <= j < k ==> Rounds(value, variables, j) != Rounds(value, variables, j + 1)
  {
    expanded := value;
    ghost var rounds: nat := 0;
    for i := 0 to ROUNDS
      invariant rounds == i && expanded == Rounds(value, variables, i)
      invariant forall j :: 0 <= j < i ==> Rounds(value, variables, j) != Rounds(value, variables, j + 1)
    {
      var replacement := Round(expanded, variables);
      if replacement == expanded {
        FixedStaysFixed(value, variables, i, ROUNDS);
        break;
      }
      expanded := replacement;
      rounds := i + 1;
      assert Rounds(value, variables, i + 1) == replacement;
    }
  }

  // ----- one round is enough for plain values

  /** A value that can neither contain a reference, nor complete one with the text around it. */
  predicate Plain(v: string) {
    && v != "" && v[0] != '{' && v[|v| - 1] != '$'
    && forall i :: 0 <= i < |v| - 1 ==> !(v[i] == '$' && v[i + 1] == '{')
  }

  ghost predicate PlainValues(env: Env) {
    forall n :: n in env ==> Plain(env[n])
  }

  function Undefined(names: seq<string>, env: Env): seq<string> {
    if names == [] then []
    else (if names[0] in env then [] else [names[0]]) + Undefined(names[1..], env)
  }

  /** A reference at the front of `text` is still one, with the same name, before any other text. */
  lemma FrontRefStays(text: string, n: nat, rest: string)
    requires RefLength(text) == Some(n)
    ensures RefLength(text[..n] + rest) == Some(n) && RefName(text[..n] + rest, n) == RefName(text, n)
  {
    var s := text[..n];
    var k := IndexFrom(s + rest, '}', 2);
    assert (s + rest)[n - 1] == '}';
    assert forall j :: 2 <= j < n - 1 ==> (s + rest)[j] == text[j];
    assert k == n - 1;
    assert (s + rest)[2..n - 1] == text[2..n - 1];
  }

  /** Text without a reference's opening passes through unchanged. */
  lemma {:induction false} PlainPasses(v: string, rest: string, env: Env)
    requires forall i :: 0 <= i < |v| - 1 ==> !(v[i] == '$' && v[i + 1] == '{')
    requires v != "" ==> v[|v| - 1] != '$'
    ensures Round(v + rest, env) == v + Round(rest, env) && Refs(v + rest) == Refs(rest)
    decreases |v|
  {
    hide Round;
    hide Refs;
    if v == "" {
      assert v + rest == rest;
    } else {
      var t := v + rest;
      assert t[0] == v[0] && t[1..] == v[1..] + rest && (|v| > 1 ==> t[1] == v[1]);
      NoRefPasses(t, env);
      PlainPasses(v[1..], rest, env);
      assert [v[0]] + (v[1..] + Round(rest, env)) == v + Round(rest, env);
    }
  }

  lemma NoRefPasses(text: string, env: Env)
    requires text != "" && RefLength(text).None?
    ensures Round(text, env) == [text[0]] + Round(text[1..], env) && Refs(text) == Refs(text[1..])
  {
  }

  /** Text without `}` holds no reference. */
  lemma {:induction false} NoBraceNoRef(text: string, env: Env)
    requires forall i :: 0 <= i < |text| ==> text[i] != '}'
    ensures Round(text, env) == text
    decreases |text|
  {
    if text != "" {
      NoBraceNoRef(text[1..], env);
    }
  }

  /** A character that begins no reference begins none after a round either. */
  lemma NoRefIsCreated(text: string, env: Env)
    requires text != "" && RefLength(text).None? && PlainValues(env)
    ensures RefLength([text[0]] + Round(text[1..], env)).None?
  {
    var t := text[1..];
    var r := Round(t, env);
    if text[0] == '$' && t != "" {
      if t[0] == '{' {
        assert RefLength(t).None?;
        assert r == ['{'] + Round(t[1..], env);
        var u := t[1..];
        var close := IndexFrom(text, '}', 2);
        if close == |text| {
          assert forall i :: 0 <= i < |u| ==> u[i] == text[i + 2];
          NoBraceNoRef(u, env);
          assert [text[0]] + r == text;
        } else {
          assert close == 2 && u[0] == '}' && RefLength(u).None?;
          assert Round(u, env) == ['}'] + Round(u[1..], env);
          assert ([text[0]] + r)[2] == '}';
        }
      } else {
        assert r == "" || r[0] != '{';
      }
    }
  }

  /** With plain values, over any text at all: one round leaves exactly the undefined references,
      creates none, and the next round changes nothing. */
  lemma {:induction false} OneRoundIsEnough(text: string, env: Env)
    requires PlainValues(env)
    ensures Round(Round(text, env), env) == Round(text, env)
    ensures Refs(Round(text, env)) == Undefined(Refs(text), env)
    decreases |text|
  {
    if text != "" {
      var ref := RefLength(text);
      if ref.Some? {
        var n, name := ref.value, RefName(text, ref.value);
        var rest := Round(text[n..], env);
        OneRoundIsEnough(text[n..], env);
        if name in env {
          PlainPasses(env[name], rest, env);
        } else {
          FrontRefStays(text, n, rest);
          assert (text[..n] + rest)[..n] == text[..n] && (text[..n] + rest)[n..] == rest;
        }
      } else {
        var rest := Round(text[1..], env);
        OneRoundIsEnough(text[1..], env);
        NoRefIsCreated(text, env);
        assert ([text[0]] + rest)[1..] == rest;
      }
    }
  }

  /** So expansion is a single round, and expanding again changes nothing. */
  lemma PlainExpansion(text: string, env: Env)
    requires PlainValues(env)
    ensures Expand(text, env) == Round(text, env)
    ensures Expand(Expand(text, env), env) == Expand(text, env)
    ensures Refs(Expand(text, env)) == Undefined(Refs(text), env)
  {
    OneRoundIsEnough(text, env);
    assert Rounds(text, env, 1) == Round(Rounds(text, env, 0), env);
    FixedStaysFixed(text, env, 1, ROUNDS);
    var once := Round(text, env);
    assert Rounds(once, env, 0) == once;
    FixedStaysFixed(once, env, 0, ROUNDS);
  }

  lemma WrittenLength(name: string, rest: string)
    requires name != "" && forall i :: 0 <= i < |name| ==> name[i] != '}'
    ensures var n, t := |name| + 3, "${" + name + "}" + rest;
            RefLength(t) == Some(n) && RefName(t, n) == name && t[n..] == rest && t[..n] == "${" + name + "}"
  {
    var n, t := |name| + 3, "${" + name + "}" + rest;
    assert t[0] == '$' && t[1] == '{' && t[n - 1] == '}';
    assert forall j :: 2 <= j < n - 1 ==> t[j] == name[j - 2];
    assert IndexFrom(t, '}', 2) == n - 1;
  }

  /** A written reference is read as one, whatever follows it. */
  lemma WrittenRef(name: string, rest: string, env: Env)
    requires name != "" && forall i :: 0 <= i < |name| ==> name[i] != '}'
    ensures var t := "${" + name + "}" + rest;
            && Refs(t) == [name] + Refs(rest)
            && Round(t, env) == (if name in env then env[name] else "${" + name + "}") + Round(rest, env)
  {
    hide RefLength;
    hide RefName;
    hide IndexFrom;
    WrittenLength(name, rest);
  }

  lemma DollarPasses(text: string, env: Env)
    requires text != "" && text[0] == '$'
    ensures Round("$" + text, env) == "$" + Round(text, env)
  {
    var t := "$" + text;
    assert t[1] == '$' && t[1..] == text;
  }

  lemma DollarBeforeRef(rest: string, env: Env)
    requires "x" in env && Round(rest, env) == rest
    ensures Round("$" + ("${x}" + rest), env) == "$" + env["x"] + rest
    ensures Round("${x}" + rest, env) == env["x"] + rest
  {
    hide Round;
    WrittenRef("x", rest, env);
    assert "${" + "x" + "}" == "${x}";
    DollarPasses("${x}" + rest, env);
  }

  /** Each condition on a value is needed: an empty value, one that starts with `{` and one that
      ends with `$` all complete a reference with the text around them. */
  lemma SeamsMatter(env: Env)
    requires "x" in env
    ensures env["x"] == "" ==> Round("$" + ("${x}" + "{x}"), env) == "${x}"
    ensures env["x"] == "{" ==> Round("$" + ("${x}" + "x}"), env) == "${x}"
    ensures env["x"] == "$" ==> Round("${x}" + "{x}", env) == "${x}"
    ensures Refs("${x}") == ["x"]
  {
    hide Round;
    hide Refs;
    PlainRound("{x}", env);
    PlainRound("x}", env);
    DollarBeforeRef("{x}", env);
    DollarBeforeRef("x}", env);
    WrittenRef("x", "", env);
    assert "${" + "x" + "}" + "" == "${x}";
    NoRefs(env);
  }

  lemma PlainRound(v: string, env: Env)
    requires forall i :: 0 <= i < |v| ==> v[i] != '$'
    ensures Round(v, env) == v
  {
    PlainPasses(v, "", env);
    assert v + "" == v;
  }

  lemma NoRefs(env: Env)
    ensures Refs("") == [] && Round("", env) == ""
  {
  }
}
