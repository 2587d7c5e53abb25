/** CMake sources in tools/codegraph.py: clean-up, `set()` variables, targets and links. */
module CMakeParser {
  import opened Text
  import opened CMakeScanner
  import opened CMakeVariables

  /** The shell-style tokenizer: a library; None when it raises on an unfinished quote or escape. */
  type Tokenizer = string -> Option<seq<string>>

  // ----- clean-up

  /** The characters at which `splitlines` ends a line. */
  predicate IsBreak(c: char) {
    10 as char <= c <= 13 as char || 28 as char <= c <= 30 as char
    || c == '\U{0085}' || c == '\U{2028}' || c == '\U{2029}'
  }

  function BreakFrom(text: string, p: nat): (k: nat)
    requires p <= |text|
    ensures p <= k <= |text|
    decreases |text| - p
  {
    if p == |text| || IsBreak(text[p]) then p else BreakFrom(text, p + 1)
  }

  /** Index just past the line break at `k`. */
  function AfterBreak(text: string, k: nat): (next: nat)
    requires k < |text|
    ensures k < next <= |text|
  {
    if text[k] == '\r' && k + 1 < |text| && text[k + 1] == '\n' then k + 2 else k + 1
  }

  function Lines(text: string): seq<string>
    decreases |text|
  {
    if text == "" then []
    else
      var k := BreakFrom(text, 0);
      if k == |text| then [text] else [text[..k]] + Lines(text[AfterBreak(text, k)..])
  }

  function CutComments(lines: seq<string>): seq<string> {
    seq(|lines|, i requires 0 <= i < |lines| => lines[i][..IndexFrom(lines[i], '#', 0)])
  }

  function StripComments(text: string): string {
    Join(CutComments(Lines(text)), "\n")
  }

  const BLOCK_OPENERS := {"function", "macro"}
  const BLOCK_CLOSERS := {"endfunction", "endmacro"}

  /** Where the nearest block end at or after `p` stops. */
  function BlockTail(text: string, p: nat): (e: Option<nat>)
    requires p <= |text|
    ensures e.Some? ==> p < e.value <= |text|
    decreases |text| - p
  {
    var h := HeadAt(text, BLOCK_CLOSERS, p);
    if h.Some? && IndexFrom(text, ')', h.value.open) < |text| then Some(IndexFrom(text, ')', h.value.open) + 1)
    else if p == |text| then None
    else BlockTail(text, p + 1)
  }

  /** Where the function or macro block that begins at `p` stops, if one does. */
  function BlockAt(text: string, p: nat): (e: Option<nat>)
    requires p <= |text|
    ensures e.Some? ==> p < e.value <= |text|
  {
    match HeadAt(text, BLOCK_OPENERS, p)
    case None => None
    case Some(h) =>
      var close := IndexFrom(text, ')', h.open);
      if close < |text| then BlockTail(text, close + 1) else None
  }

  function StripBlocks(text: string, p: nat): string
    requires p <= |text|
    decreases |text| - p
  {
    if p == |text| then ""
    else
      match BlockAt(text, p)
      case Some(e) => StripBlocks(text, e)
      case None => [text[p]] + StripBlocks(text, p + 1)
  }

  function Clean(text: string): string {
    StripBlocks(StripComments(text), 0)
  }

  // ----- variables

  const TERMINATORS := {"CACHE", "PARENT_SCOPE", "FORCE"}

  function UpToTerminator(tokens: seq<string>): seq<string> {
    if tokens == [] || Upper(tokens[0]) in TERMINATORS then [] else [tokens[0]] + UpToTerminator(tokens[1..])
  }

  /** The variable and the raw value a `set` call gives it, if it gives one. */
  function SetCall(tokens: seq<string>): Option<(string, string)> {
    if |tokens| < 2 || "ENV{" <= tokens[0] then None
    else
      var values := UpToTerminator(tokens[1..]);
      if values == [] then None else Some((tokens[0], Join(values, " ")))
  }

  function Assign(tokens: seq<string>, env: Env): Env {
    match SetCall(tokens)
    case None => env
    case Some((name, value)) => env[name := Expand(value, env)]
  }

  /** The `set` calls in source order; None when a body cannot be tokenized. */
  function AssignAll(calls: seq<(string, string)>, env: Env, tok: Tokenizer): Option<Env>
    decreases |calls|
  {
    if calls == [] then Some(env)
    else
      match tok(calls[0].1)
      case None => None
      case Some(tokens) => AssignAll(calls[1..], Assign(tokens, env), tok)
  }

  const SET := {"set"}

  function Variables(text: string, initial: Env, tok: Tokenizer): Option<Env> {
    AssignAll(Yields(Scan(Clean(text), SET, 0)), initial, tok)
  }

  method ValuesOf(tokens: seq<string>) returns (values: seq<string>)
    requires tokens != []
    ensures values == UpToTerminator(tokens[1..])
  {
    values := [];
    for j := 1 to |tokens|
      invariant values + UpToTerminator(tokens[j..]) == UpToTerminator(tokens[1..])
    {
      if Upper(tokens[j]) in TERMINATORS {
        return;
      }
      assert tokens[j..][1..] == tokens[j + 1..];
      values := values + [tokens[j]];
    }
  }

  lemma AssignNext(calls: seq<(string, string)>, i: nat, env: Env, tok: Tokenizer)
    requires i < |calls|
    ensures AssignAll(calls[i..], env, tok) ==
            match tok(calls[i].1)
            case None => None
            case Some(tokens) => AssignAll(calls[i + 1..], Assign(tokens, env), tok)
  {
    assert calls[i..][1..] == calls[i + 1..];
  }

  method ParseCMakeVariables(text: string, initial: Env, tok: Tokenizer) returns (r: Option<Env>)
    ensures r == Variables(text, initial, tok)
  {
    hide Scan;
    hide Clean;
    hide Yields;
    hide Expand;
    hide UpToTerminator;
    var variables := initial;
    var calls := IterCMakeCalls(Clean(text), SET);
    assert calls[0..] == calls;
    for i := 0 to |calls|
      invariant AssignAll(calls[i..], variables, tok) == AssignAll(calls, initial, tok)
    {
      AssignNext(calls, i, variables, tok);
      var lexed := tok(calls[i].1);
      if lexed.None? {
        return None;
      }
      var tokens := lexed.value;
      if |tokens| < 2 || "ENV{" <= tokens[0] {
        continue;
      }
      var values := ValuesOf(tokens);
      if values == [] {
        continue;
      }
      var expanded := ExpandVariables(Join(values, " "), variables);
      variables := variables[tokens[0] := expanded];
    }
    r := Some(variables);
  }

  // ----- targets and links

  datatype TargetKind = Executable | Library | Test

  datatype TargetDecl = TargetDecl(name: string, kind: TargetKind)

  datatype TargetLink = TargetLink(source: string, target: string)

  const CALL_NAMES := {"add_executable", "add_library", "create_test", "target_link_libraries"}

  /** The ignored link tokens, upper-cased as the comparison does. */
  const LINK_KEYWORDS :=
    {"PRIVATE", "PUBLIC", "INTERFACE", "LINK_PRIVATE", "LINK_PUBLIC", "DEBUG", "GENERAL", "OPTIMIZED"}

  function ExpandAll(tokens: seq<string>, env: Env): seq<string> {
    seq(|tokens|, i requires 0 <= i < |tokens| => Expand(tokens[i], env))
  }

  /** The token after the first `NAME` keyword that is not the last token. */
  function TestName(tokens: seq<string>): Option<string> {
    if |tokens| < 2 then None
    else if Upper(tokens[0]) == "NAME" then Some(tokens[1])
    else TestName(tokens[1..])
  }

  function DeclOf(name: string, tokens: seq<string>): set<TargetDecl>
    requires tokens != []
  {
    if name == "add_executable" then {TargetDecl(tokens[0], Executable)}
    else if name == "add_library" then {TargetDecl(tokens[0], Library)}
    else if name == "create_test" && TestName(tokens).Some? then {TargetDecl(TestName(tokens).value, Test)}
    else {}
  }

  predicate IsLinkItem(token: string) {
    Upper(token) !in LINK_KEYWORDS && Refs(token) == []
  }

  function LinksOf(name: string, tokens: seq<string>): set<TargetLink>
    requires tokens != []
  {
    if name == "target_link_libraries" then
      set i | 1 <= i < |tokens| && IsLinkItem(tokens[i]) :: TargetLink(tokens[0], tokens[i])
    else {}
  }

  datatype Parsed = Parsed(targets: set<TargetDecl>, links: set<TargetLink>)

  function ParseCalls(calls: seq<(string, string)>, env: Env, tok: Tokenizer): Option<Parsed>
    decreases |calls|
  {
    if calls == [] then Some(Parsed({}, {}))
    else
      match tok(calls[0].1)
      case None => None
      case Some(raw) =>
        var tokens := ExpandAll(raw, env);
        match ParseCalls(calls[1..], env, tok)
        case None => None
        case Some(rest) =>
          if tokens == [] then Some(rest)
          else Some(Parsed(DeclOf(calls[0].0, tokens) + rest.targets, LinksOf(calls[0].0, tokens) + rest.links))
  }

  /** The variables are read from the text already cleaned once, so they are cleaned twice. */
  function Parse(text: string, variables: Env, tok: Tokenizer): Option<Parsed> {
    match Variables(Clean(text), variables, tok)
    case None => None
    case Some(env) => ParseCalls(Yields(Scan(Clean(text), CALL_NAMES, 0)), env, tok)
  }

  method ExpandTokens(raw: seq<string>, env: Env) returns (tokens: seq<string>)
    ensures tokens == ExpandAll(raw, env)
  {
    tokens := [];
    for i := 0 to |raw|
      invariant |tokens| == i && forall j :: 0 <= j < i ==> tokens[j] == Expand(raw[j], env)
    {
      var t := ExpandVariables(raw[i], env);
      tokens := tokens + [t];
    }
  }

  lemma {:induction false} TestNameSkips(tokens: seq<string>, i: nat)
    requires i <= |tokens| && forall j :: 0 <= j < i && j < |tokens| - 1 ==> Upper(tokens[j]) != "NAME"
    ensures TestName(tokens) == TestName(tokens[i..])
    decreases i
  {
    if i > 0 && |tokens| >= 2 {
      assert tokens[1..][i - 1..] == tokens[i..];
      TestNameSkips(tokens[1..], i - 1);
    } else if i > 0 {
      assert |tokens[i..]| < 2;
    } else {
      assert tokens[0..] == tokens;
    }
  }

  method DeclareTargets(name: string, tokens: seq<string>) returns (targets: set<TargetDecl>)
    requires tokens != []
    ensures targets == DeclOf(name, tokens)
  {
    targets := {};
    if name == "add_executable" {
      targets := {TargetDecl(tokens[0], Executable)};
    } else if name == "add_library" {
      targets := {TargetDecl(tokens[0], Library)};
    } else if name == "create_test" {
      for i := 0 to |tokens| - 1
        invariant targets == {} && forall j :: 0 <= j < i ==> Upper(tokens[j]) != "NAME"
      {
        if Upper(tokens[i]) == "NAME" {
          TestNameSkips(tokens, i);
          targets := {TargetDecl(tokens[i + 1], Test)};
          return;
        }
      }
      TestNameSkips(tokens, |tokens| - 1);
    }
  }

  method CollectLinks(name: string, tokens: seq<string>) returns (links: set<TargetLink>)
    requires tokens != []
    ensures links == LinksOf(name, tokens)
  {
    links := {};
    if name == "target_link_libraries" {
      for i := 1 to |tokens|
        invariant links == set j | 1 <= j < i && IsLinkItem(tokens[j]) :: TargetLink(tokens[0], tokens[j])
      {
        if Upper(tokens[i]) !in LINK_KEYWORDS && Refs(tokens[i]) == [] {
          links := links + {TargetLink(tokens[0], tokens[i])};
        }
      }
    }
  }

  lemma ParseNext(calls: seq<(string, string)>, i: nat, env: Env, tok: Tokenizer)
    requires i < |calls|
    ensures ParseCalls(calls[i..], env, tok) ==
            match tok(calls[i].1)
            case None => None
            case Some(raw) =>
              var tokens := ExpandAll(raw, env);
              if tokens == [] then ParseCalls(calls[i + 1..], env, tok)
              else Merged(DeclOf(calls[i].0, tokens), LinksOf(calls[i].0, tokens), ParseCalls(calls[i + 1..], env, tok))
  {
    assert calls[i..][1..] == calls[i + 1..];
  }

  method ParseCMake(text: string, variables: Env, tok: Tokenizer) returns (r: Option<Parsed>)
    ensures r == Parse(text, variables, tok)
  {
    hide Scan;
    hide Clean;
    hide Yields;
    hide Variables;
    hide DeclOf;
    hide LinksOf;
    hide ExpandAll;
    var targets: set<TargetDecl> := {};
    var links: set<TargetLink> := {};
    var cleaned := Clean(text);
    var found := ParseCMakeVariables(cleaned, variables, tok);
    if found.None? {
      return None;
    }
    var local := found.value;
    var calls := IterCMakeCalls(cleaned, CALL_NAMES);
    assert calls[0..] == calls;
    MergedNothing(ParseCalls(calls, local, tok));
    for i := 0 to |calls|
      invariant Merged(targets, links, ParseCalls(calls[i..], local, tok)) == ParseCalls(calls, local, tok)
    {
      ParseNext(calls, i, local, tok);
      var lexed := tok(calls[i].1);
      if lexed.None? {
        return None;
      }
      var tokens := ExpandTokens(lexed.value, local);
      if tokens == [] {
        continue;
      }
      var declared := DeclareTargets(calls[i].0, tokens);
      var linked := CollectLinks(calls[i].0, tokens);
      MergedTwice(targets, links, declared, linked, ParseCalls(calls[i + 1..], local, tok));
      targets, links := targets + declared, links + linked;
    }
    r := Some(Parsed(targets, links));
  }

  ghost function Merged(targets: set<TargetDecl>, links: set<TargetLink>, rest: Option<Parsed>): Option<Parsed> {
    match rest
    case None => None
    case Some(p) => Some(Parsed(targets + p.targets, links + p.links))
  }

  lemma MergedNothing(rest: Option<Parsed>)
    ensures Merged({}, {}, rest) == rest
  {
    if rest.Some? {
      assert {} + rest.value.targets == rest.value.targets && {} + rest.value.links == rest.value.links;
    }
  }

  lemma MergedTwice(t: set<TargetDecl>, l: set<TargetLink>, t': set<TargetDecl>, l': set<TargetLink>,
      rest: Option<Parsed>)
    ensures Merged(t, l, Merged(t', l', rest)) == Merged(t + t', l + l', rest)
  {
    if rest.Some? {
      assert t + (t' + rest.value.targets) == (t + t') + rest.value.targets;
      assert l + (l' + rest.value.links) == (l + l') + rest.value.links;
    }
  }
}
