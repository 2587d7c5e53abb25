/** What the calls of a CMake text mean, told from their tokens. */
module CMakeCalls {
  import opened Text
  import opened TextLaws
  import opened CMakeScanner
  import opened CMakeVariables
  import opened CMakeParser
  import opened CMakeLaws

  // ----- set

  /** A word that ends the value of a `set` call. */
  ghost predicate EndsValue(token: string) {
    Spells(token, "CACHE") || Spells(token, "PARENT_SCOPE") || Spells(token, "FORCE")
  }

  lemma EndsValueIff(token: string)
    ensures EndsValue(token) <==> Upper(token) in TERMINATORS
  {
    hide Spells;
    SpellsIff(token, "CACHE");
    SpellsIff(token, "PARENT_SCOPE");
    SpellsIff(token, "FORCE");
    assert Upper("CACHE") == "CACHE" && Upper("PARENT_SCOPE") == "PARENT_SCOPE" && Upper("FORCE") == "FORCE";
  }

  /** The value of a `set` call is `tokens[1..k]`: all up to the first word that ends it. */
  ghost predicate ValueEndsAt(tokens: seq<string>, k: nat) {
    && 1 <= k <= |tokens|
    && (forall i :: 1 <= i < k ==> !EndsValue(tokens[i]))
    && (k == |tokens| || EndsValue(tokens[k]))
  }

  lemma {:induction false} UpToIs(tokens: seq<string>, i: nat, k: nat)
    requires i <= k <= |tokens| && (forall j :: i <= j < k ==> !EndsValue(tokens[j]))
    requires k == |tokens| || EndsValue(tokens[k])
    ensures UpToTerminator(tokens[i..]) == tokens[i..k]
    decreases k - i
  {
    hide EndsValue;
    if i < |tokens| {
      EndsValueIff(tokens[i]);
    }
    if i < k {
      UpToIs(tokens, i + 1, k);
      assert tokens[i..][1..] == tokens[i + 1..];
      assert tokens[i..k] == [tokens[i]] + tokens[i + 1..k];
    }
  }

  /** The tokens joined by single blanks. */
  function Spaced(tokens: seq<string>): string {
    if tokens == [] then ""
    else
      var last := tokens[|tokens| - 1];
      if |tokens| == 1 then last else Spaced(tokens[..|tokens| - 1]) + " " + last
  }

  lemma {:induction false} JoinSnoc(tokens: seq<string>, last: string)
    requires tokens != []
    ensures Join(tokens + [last], " ") == Join(tokens, " ") + " " + last
    decreases |tokens|
  {
    if |tokens| == 1 {
      assert (tokens + [last])[1..] == [last];
    } else {
      assert (tokens + [last])[1..] == tokens[1..] + [last];
      JoinSnoc(tokens[1..], last);
    }
  }

  lemma {:induction false} SpacedIsJoin(tokens: seq<string>)
    ensures Spaced(tokens) == Join(tokens, " ")
    decreases |tokens|
  {
    if |tokens| > 1 {
      var front, last := tokens[..|tokens| - 1], tokens[|tokens| - 1];
      SpacedIsJoin(front);
      assert tokens == front + [last];
      JoinSnoc(front, last);
    }
  }

  /** A `set` call assigns nothing, or binds its first token to the expansion of the tokens up to the first
      `CACHE`, `PARENT_SCOPE` or `FORCE`, in any case, separated by single blanks. */
  lemma SetAssigns(call: (string, string), tokens: seq<string>, k: nat, env: Env, tok: Tokenizer)
    requires tok(call.1) == Some(tokens) && (tokens == [] || ValueEndsAt(tokens, k))
    ensures AssignAll([call], env, tok) ==
            if |tokens| < 2 || k == 1 || "ENV{" <= tokens[0] then Some(env)
            else Some(env[tokens[0] := Expand(Spaced(tokens[1..k]), env)])
  {
    hide Expand;
    hide EndsValue;
    if tokens != [] {
      UpToIs(tokens, 1, k);
      SpacedIsJoin(tokens[1..k]);
    }
    assert [call][1..] == [];
  }

  /** Every value has an end. */
  lemma ValueHasEnd(tokens: seq<string>) returns (k: nat)
    requires tokens != []
    ensures ValueEndsAt(tokens, k)
  {
    hide EndsValue;
    k := 1;
    while k < |tokens| && !EndsValue(tokens[k])
      invariant 1 <= k <= |tokens| && forall i :: 1 <= i < k ==> !EndsValue(tokens[i])
    {
      k := k + 1;
    }
  }

  // ----- declarations

  /** The tokens of a call, each expanded. */
  ghost predicate HasTokens(call: (string, string), env: Env, tok: Tokenizer, tokens: seq<string>) {
    && tok(call.1).Some? && |tokens| == |tok(call.1).value| > 0
    && forall i :: 0 <= i < |tokens| ==> tokens[i] == Expand(tok(call.1).value[i], env)
  }

  /** A call declares a test by the token after its first `NAME`, in any case, that is not its last token. */
  ghost predicate NamesTest(tokens: seq<string>, i: nat, name: string) {
    && i < |tokens| - 1 && Spells(tokens[i], "NAME") && tokens[i + 1] == name
    && forall j :: 0 <= j < i ==> !Spells(tokens[j], "NAME")
  }

  ghost predicate DeclaresBy(name: string, tokens: seq<string>, decl: TargetDecl) {
    match decl.kind
    case Executable => name == "add_executable" && tokens != [] && tokens[0] == decl.name
    case Library => name == "add_library" && tokens != [] && tokens[0] == decl.name
    case Test => name == "create_test" && exists i :: NamesTest(tokens, i, decl.name)
  }

  lemma NameIsSpelled(token: string)
    ensures Spells(token, "NAME") <==> Upper(token) == "NAME"
  {
    SpellsIff(token, "NAME");
    assert Upper("NAME") == "NAME";
  }

  lemma {:induction false} TestNameIff(tokens: seq<string>, name: string)
    ensures TestName(tokens) == Some(name) <==> exists i :: NamesTest(tokens, i, name)
    decreases |tokens|
  {
    hide Spells;
    if |tokens| >= 2 {
      NameIsSpelled(tokens[0]);
      var rest := tokens[1..];
      if Spells(tokens[0], "NAME") {
        if tokens[1] == name {
          assert NamesTest(tokens, 0, name);
        }
      } else {
        TestNameIff(rest, name);
        if exists i :: NamesTest(rest, i, name) {
          var i: nat :| NamesTest(rest, i, name);
          assert NamesTest(tokens, i + 1, name);
        }
        if exists i :: NamesTest(tokens, i, name) {
          var i: nat :| NamesTest(tokens, i, name);
          assert NamesTest(rest, i - 1, name);
        }
      }
    }
  }

  lemma DeclIff(name: string, tokens: seq<string>, decl: TargetDecl)
    requires tokens != []
    ensures decl in DeclOf(name, tokens) <==> DeclaresBy(name, tokens, decl)
  {
    hide TestName;
    hide NamesTest;
    TestNameIff(tokens, decl.name);
    assert "add_executable" != "add_library" && "create_test" != "add_library" && "add_executable" != "create_test" by {
      assert "add_executable"[4] == 'e' && "add_library"[4] == 'l' && "create_test"[4] == 't';
    }
  }

  // ----- links

  /** The words that say how to link, not what. */
  ghost predicate IsLinkWord(token: string) {
    || Spells(token, "PRIVATE") || Spells(token, "PUBLIC") || Spells(token, "INTERFACE")
    || Spells(token, "LINK_PRIVATE") || Spells(token, "LINK_PUBLIC")
    || Spells(token, "debug") || Spells(token, "general") || Spells(token, "optimized")
  }

  lemma LinkWordIff(token: string)
    ensures IsLinkWord(token) <==> Upper(token) in LINK_KEYWORDS
  {
    hide Spells;
    SpellsIff(token, "PRIVATE");
    SpellsIff(token, "PUBLIC");
    SpellsIff(token, "INTERFACE");
    SpellsIff(token, "LINK_PRIVATE");
    SpellsIff(token, "LINK_PUBLIC");
    SpellsIff(token, "debug");
    SpellsIff(token, "general");
    SpellsIff(token, "optimized");
    UpperWords();
  }

  lemma UpperWords()
    ensures Upper("PRIVATE") == "PRIVATE" && Upper("PUBLIC") == "PUBLIC" && Upper("INTERFACE") == "INTERFACE"
    ensures Upper("LINK_PRIVATE") == "LINK_PRIVATE" && Upper("LINK_PUBLIC") == "LINK_PUBLIC"
    ensures Upper("debug") == "DEBUG" && Upper("general") == "GENERAL" && Upper("optimized") == "OPTIMIZED"
  {
  }

  /** A reference stands in the text at `i`: an opening, a name that is not empty, and the first closing
      brace after it. */
  ghost predicate RefersAt(text: string, i: nat, e: nat) {
    && i + 3 < e <= |text| && text[i] == '$' && text[i + 1] == '{' && text[e - 1] == '}'
    && forall j :: i + 2 <= j < e - 1 ==> text[j] != '}'
  }

  lemma RefLengthIff(text: string, n: nat)
    ensures RefLength(text) == Some(n) <==> RefersAt(text, 0, n)
  {
    if RefersAt(text, 0, n) {
      assert IndexFrom(text, '}', 2) == n - 1;
    }
  }

  /** A text holds a reference exactly if one stands somewhere in it. */
  lemma {:induction false} RefsIff(text: string)
    ensures Refs(text) == [] <==> !exists i, e :: RefersAt(text, i, e)
    decreases |text|
  {
    hide RefLength;
    if text != [] {
      var rest := text[1..];
      if RefLength(text).Some? {
        RefLengthIff(text, RefLength(text).value);
        assert RefersAt(text, 0, RefLength(text).value);
      } else {
        RefsIff(rest);
        forall e: nat ensures !RefersAt(text, 0, e) {
          RefLengthIff(text, e);
        }
        if exists i, e :: RefersAt(rest, i, e) {
          var i: nat, e: nat :| RefersAt(rest, i, e);
          assert RefersAt(text, i + 1, e + 1);
        }
        if exists i, e :: RefersAt(text, i, e) {
          var i: nat, e: nat :| RefersAt(text, i, e);
          assert RefersAt(rest, i - 1, e - 1);
        }
      }
    }
  }

  ghost predicate LinksBy(name: string, tokens: seq<string>, link: TargetLink) {
    && name == "target_link_libraries" && tokens != [] && tokens[0] == link.source
    && !IsLinkWord(link.target) && (!exists i, e :: RefersAt(link.target, i, e))
    && exists k :: 1 <= k < |tokens| && tokens[k] == link.target
  }

  lemma LinkIff(name: string, tokens: seq<string>, link: TargetLink)
    requires tokens != []
    ensures link in LinksOf(name, tokens) <==> LinksBy(name, tokens, link)
  {
    hide IsLinkWord;
    hide RefersAt;
    hide Upper;
    hide Refs;
    LinkWordIff(link.target);
    RefsIff(link.target);
    if LinksBy(name, tokens, link) {
      var k :| 1 <= k < |tokens| && tokens[k] == link.target;
      assert TargetLink(tokens[0], tokens[k]) == link;
    }
  }

  // ----- a whole text

  /** Some call of the list, with these expanded tokens, declares the target. */
  ghost predicate DeclaredAmong(calls: seq<(string, string)>, env: Env, tok: Tokenizer, decl: TargetDecl) {
    exists c, tokens :: c in calls && HasTokens(c, env, tok, tokens) && DeclaresBy(c.0, tokens, decl)
  }

  ghost predicate LinkedAmong(calls: seq<(string, string)>, env: Env, tok: Tokenizer, link: TargetLink) {
    exists c, tokens :: c in calls && HasTokens(c, env, tok, tokens) && LinksBy(c.0, tokens, link)
  }

  lemma TokensAreExpanded(call: (string, string), env: Env, tok: Tokenizer, tokens: seq<string>)
    ensures HasTokens(call, env, tok, tokens) <==>
            tok(call.1).Some? && tokens == ExpandAll(tok(call.1).value, env) && tokens != []
  {
    hide Expand;
  }

  lemma CallDeclaresIff(c: (string, string), env: Env, tok: Tokenizer, decl: TargetDecl)
    ensures CallDeclares(c, env, tok, decl) <==>
            exists tokens :: HasTokens(c, env, tok, tokens) && DeclaresBy(c.0, tokens, decl)
  {
    hide DeclOf;
    hide DeclaresBy;
    hide HasTokens;
    hide ExpandAll;
    forall tokens ensures HasTokens(c, env, tok, tokens) <==>
                          tok(c.1).Some? && tokens == ExpandAll(tok(c.1).value, env) && tokens != []
    {
      TokensAreExpanded(c, env, tok, tokens);
    }
    if tok(c.1).Some? {
      var tokens := ExpandAll(tok(c.1).value, env);
      if tokens != [] {
        DeclIff(c.0, tokens, decl);
      }
    }
  }

  lemma CallLinksIff(c: (string, string), env: Env, tok: Tokenizer, link: TargetLink)
    ensures CallLinks(c, env, tok, link) <==>
            exists tokens :: HasTokens(c, env, tok, tokens) && LinksBy(c.0, tokens, link)
  {
    hide LinksOf;
    hide LinksBy;
    hide HasTokens;
    hide ExpandAll;
    forall tokens ensures HasTokens(c, env, tok, tokens) <==>
                          tok(c.1).Some? && tokens == ExpandAll(tok(c.1).value, env) && tokens != []
    {
      TokensAreExpanded(c, env, tok, tokens);
    }
    if tok(c.1).Some? {
      var tokens := ExpandAll(tok(c.1).value, env);
      if tokens != [] {
        LinkIff(c.0, tokens, link);
      }
    }
  }

  /** Over any calls, the targets and links collected are exactly those some call declares or links. */
  lemma CollectedIff(calls: seq<(string, string)>, env: Env, tok: Tokenizer, decl: TargetDecl, link: TargetLink)
    requires ParseCalls(calls, env, tok).Some?
    ensures var p := ParseCalls(calls, env, tok).value;
            && (decl in p.targets <==> DeclaredAmong(calls, env, tok, decl))
            && (link in p.links <==> LinkedAmong(calls, env, tok, link))
  {
    hide ParseCalls;
    hide CallDeclares;
    hide CallLinks;
    hide HasTokens;
    hide DeclaresBy;
    hide LinksBy;
    ParsedIff(calls, env, tok, link, decl);
    forall c | c in calls
      ensures CallDeclares(c, env, tok, decl) <==>
                exists tokens :: HasTokens(c, env, tok, tokens) && DeclaresBy(c.0, tokens, decl)
      ensures CallLinks(c, env, tok, link) <==>
                exists tokens :: HasTokens(c, env, tok, tokens) && LinksBy(c.0, tokens, link)
    {
      CallDeclaresIff(c, env, tok, decl);
      CallLinksIff(c, env, tok, link);
    }
  }

  /** The `set` calls of a text, outside comments and function bodies. */
  function SetCalls(text: string): seq<(string, string)> {
    Yields(Scan(Clean(text), {"set"}, 0))
  }

  /** The calls of a text that declare or link, outside comments and function bodies. */
  function BuildCalls(text: string): seq<(string, string)> {
    Yields(Scan(Clean(text), {"add_executable", "add_library", "create_test", "target_link_libraries"}, 0))
  }

  /** A parsed text declares and links what its calls say, in the environment its own `set` calls leave on
      top of the one it starts from. */
  lemma TextDeclares(text: string, variables: Env, env: Env, tok: Tokenizer, decl: TargetDecl, link: TargetLink)
    requires AssignAll(SetCalls(Clean(text)), variables, tok) == Some(env) && Parse(text, variables, tok).Some?
    ensures var p := Parse(text, variables, tok).value;
            && (decl in p.targets <==> DeclaredAmong(BuildCalls(text), env, tok, decl))
            && (link in p.links <==> LinkedAmong(BuildCalls(text), env, tok, link))
  {
    hide ParseCalls;
    hide Scan;
    hide Yields;
    hide Clean;
    hide DeclaredAmong;
    hide LinkedAmong;
    CollectedIff(BuildCalls(text), env, tok, decl, link);
  }

  /** Parsing fails exactly when the variables or some call cannot be tokenized. */
  lemma TextParsesIff(text: string, variables: Env, tok: Tokenizer)
    ensures Parse(text, variables, tok).Some? <==>
            (forall c :: c in SetCalls(Clean(text)) ==> tok(c.1).Some?) &&
            forall c :: c in BuildCalls(text) ==> tok(c.1).Some?
  {
    hide ParseCalls;
    hide Scan;
    hide Yields;
    hide Clean;
    hide AssignAll;
    SetsParseIff(SetCalls(Clean(text)), variables, tok);
    var vars := Variables(Clean(text), variables, tok);
    if vars.Some? {
      CallsParseIff(BuildCalls(text), vars.value, tok);
    }
  }

  lemma {:induction false} CallsParseIff(calls: seq<(string, string)>, env: Env, tok: Tokenizer)
    ensures ParseCalls(calls, env, tok).Some? <==> forall c :: c in calls ==> tok(c.1).Some?
    decreases |calls|
  {
    hide ExpandAll;
    hide DeclOf;
    hide LinksOf;
    if calls != [] {
      CallsParseIff(calls[1..], env, tok);
      assert calls == [calls[0]] + calls[1..];
      assert forall c :: c in calls <==> c == calls[0] || c in calls[1..];
    }
  }

  lemma {:induction false} SetsParseIff(calls: seq<(string, string)>, env: Env, tok: Tokenizer)
    ensures AssignAll(calls, env, tok).Some? <==> forall c :: c in calls ==> tok(c.1).Some?
    decreases |calls|
  {
    hide Assign;
    if calls != [] {
      if tok(calls[0].1).Some? {
        SetsParseIff(calls[1..], Assign(tok(calls[0].1).value, env), tok);
      }
      assert calls == [calls[0]] + calls[1..];
      assert forall c :: c in calls <==> c == calls[0] || c in calls[1..];
    }
  }

  // ----- comments and blocks

  /** A line is cut at its first `#`. */
  lemma LineIsCut(x: string, y: string)
    requires (forall i :: 0 <= i < |x| ==> x[i] != '#' && !IsBreak(x[i])) && forall i :: 0 <= i < |y| ==> !IsBreak(y[i])
    ensures StripComments(x) == x && StripComments(x + ("#" + y)) == x
    ensures NoOpenComment(x + ("#" + y) + "\n")
  {
    hide StripComments;
    hide IsBreak;
    hide BreakFrom;
    var t := x + ("#" + y);
    BreaksBreak();
    NoBreakAtHash();
    NothingToCut();
    assert t[|x|] == '#' && forall i :: |x| < i < |t| ==> t[i] == y[i - |x| - 1];
    NoBreak(x, 0);
    NoBreak(t, 0);
    if x != "" {
      StripUnfolds(x);
    }
    StripUnfolds(t);
    assert IndexFrom(x, '#', 0) == |x| && IndexFrom(t, '#', 0) == |x|;
    assert t[..|x|] == x && x[..|x|] == x;
    var u := t + "\n";
    assert u[|t|] == '\n';
  }

  lemma NoBreakAtHash()
    ensures !IsBreak('#')
  {
  }

  lemma {:induction false} NoBreak(text: string, p: nat)
    requires p <= |text| && forall i :: p <= i < |text| ==> !IsBreak(text[i])
    ensures BreakFrom(text, p) == |text|
    decreases |text| - p
  {
    if p < |text| {
      NoBreak(text, p + 1);
    }
  }

  /** The characters that end a line. */
  lemma BreaksAre(c: char)
    ensures IsBreak(c) <==> c as int in {10, 11, 12, 13, 28, 29, 30, 0x85, 0x2028, 0x2029}
  {
  }

  /** `c` is the first closing parenthesis at or after `i`. */
  ghost predicate FirstClose(text: string, i: nat, c: int) {
    i <= c < |text| && text[c] == ')' && forall j :: i <= j < c ==> text[j] != ')'
  }

  /** A block end at or after `i`: a closing head, and its first closing parenthesis just before `e`. */
  ghost predicate IsTail(text: string, i: nat, g: Head, e: nat) {
    i <= g.start && MatchesHead(text, {"endfunction", "endmacro"}, g) && FirstClose(text, g.open, e - 1)
  }

  ghost predicate NearestTail(text: string, i: nat, g: Head, e: nat) {
    IsTail(text, i, g, e) && forall f, d: nat :: IsTail(text, i, f, d) ==> g.start <= f.start
  }

  /** The block pattern read as a regular expression: an opening head, its first closing parenthesis, then
      the nearest closing head that has one, up to that one. */
  ghost predicate MatchesBlock(text: string, p: nat, h: Head, c: nat, g: Head, e: nat) {
    && h.start == p && MatchesHead(text, {"function", "macro"}, h)
    && FirstClose(text, h.open, c) && NearestTail(text, c + 1, g, e)
  }

  lemma BlockNames()
    ensures CallNames({"function", "macro"}) && CallNames({"endfunction", "endmacro"})
    ensures BLOCK_OPENERS == {"function", "macro"} && BLOCK_CLOSERS == {"endfunction", "endmacro"}
  {
  }

  lemma FirstCloseIs(text: string, i: nat, c: int)
    requires i <= |text|
    ensures FirstClose(text, i, c) <==> IndexFrom(text, ')', i) == c < |text|
  {
    hide IndexFrom;
    var k := IndexFrom(text, ')', i);
    if FirstClose(text, i, c) {
      assert k >= c && k <= c;
    }
  }

  lemma HeadInText(text: string, names: set<string>, h: Head)
    requires MatchesHead(text, names, h)
    ensures h.start < h.nameEnd < h.open <= |text|
  {
  }

  /** At one position there is one tail, or none. */
  lemma TailAt(text: string, p: nat, g: Head, e: nat)
    requires p <= |text| && g.start == p
    ensures IsTail(text, p, g, e) <==>
            HeadAt(text, BLOCK_CLOSERS, p) == Some(g) && IndexFrom(text, ')', g.open) == e - 1 < |text|
  {
    hide IndexFrom;
    hide HeadAt;
    hide MatchesHead;
    hide FirstClose;
    BlockNames();
    HeadAtIsThePattern(text, BLOCK_CLOSERS, g);
    if MatchesHead(text, BLOCK_CLOSERS, g) {
      HeadInText(text, BLOCK_CLOSERS, g);
      FirstCloseIs(text, g.open, e - 1);
    }
  }

  lemma TailLater(text: string, p: nat, next: nat, g: Head, e: nat)
    requires next == p + 1
    ensures IsTail(text, next, g, e) ==> IsTail(text, p, g, e)
    ensures IsTail(text, p, g, e) && g.start > p ==> IsTail(text, next, g, e)
  {
  }

  lemma {:induction false} NearestTailIff(text: string, p: nat, e: nat)
    requires p <= |text|
    ensures BlockTail(text, p) == Some(e) <==> exists g :: NearestTail(text, p, g, e)
    decreases |text| - p
  {
    hide HeadAt;
    hide IndexFrom;
    hide IsTail;
    hide NearestTail;
    var h := HeadAt(text, BLOCK_CLOSERS, p);
    if h.Some? && IndexFrom(text, ')', h.value.open) < |text| {
      TailHere(text, p, h.value, e);
    } else if p < |text| {
      NearestTailIff(text, p + 1, e);
      NoTailHere(text, p);
      TailFurther(text, p, p + 1, e);
    } else {
      NoTailAtEnd(text, e);
    }
  }

  lemma NoTailAtEnd(text: string, e: nat)
    ensures !exists g :: NearestTail(text, |text|, g, e)
  {
    forall g ensures !NearestTail(text, |text|, g, e) {
      TailInText(text, |text|, g, e);
    }
  }

  lemma NoTailHere(text: string, p: nat)
    requires p < |text|
    requires var h := HeadAt(text, BLOCK_CLOSERS, p); h.Some? ==> IndexFrom(text, ')', h.value.open) == |text|
    ensures forall g: Head, e: nat :: g.start == p ==> !IsTail(text, p, g, e)
  {
    hide HeadAt;
    hide IndexFrom;
    hide IsTail;
    forall g: Head, e: nat | g.start == p ensures !IsTail(text, p, g, e) {
      TailAt(text, p, g, e);
    }
  }

  lemma TailInText(text: string, p: nat, f: Head, d: nat)
    ensures IsTail(text, p, f, d) ==> p <= f.start < |text|
  {
  }

  lemma TailHere(text: string, p: nat, h: Head, e: nat)
    requires p <= |text| && HeadAt(text, BLOCK_CLOSERS, p) == Some(h) && IndexFrom(text, ')', h.open) < |text|
    ensures (exists g :: NearestTail(text, p, g, e)) <==> e == IndexFrom(text, ')', h.open) + 1
  {
    hide HeadAt;
    hide IndexFrom;
    hide IsTail;
    var n := IndexFrom(text, ')', h.open) + 1;
    HereIsNearest(text, p, h, n);
    forall g ensures NearestTail(text, p, g, e) ==> e == n {
      TailAt(text, p, h, n);
      if NearestTail(text, p, g, e) {
        TailInText(text, p, g, e);
        TailAt(text, p, g, e);
      }
    }
  }

  lemma HereIsNearest(text: string, p: nat, h: Head, n: nat)
    requires p <= |text| && HeadAt(text, BLOCK_CLOSERS, p) == Some(h) && IndexFrom(text, ')', h.open) == n - 1 < |text|
    requires h.start == p
    ensures NearestTail(text, p, h, n)
  {
    hide HeadAt;
    hide IndexFrom;
    hide IsTail;
    TailAt(text, p, h, n);
    forall f, d: nat ensures IsTail(text, p, f, d) ==> h.start <= f.start {
      TailInText(text, p, f, d);
    }
  }

  lemma TailFurther(text: string, p: nat, next: nat, e: nat)
    requires next == p + 1 && forall g: Head, e: nat :: g.start == p ==> !IsTail(text, p, g, e)
    ensures (exists g :: NearestTail(text, p, g, e)) <==> exists g :: NearestTail(text, next, g, e)
  {
    hide IsTail;
    forall f, d: nat ensures IsTail(text, p, f, d) <==> IsTail(text, next, f, d) {
      TailLater(text, p, next, f, d);
      TailInText(text, p, f, d);
    }
    forall g ensures NearestTail(text, p, g, e) <==> NearestTail(text, next, g, e) {
    }
  }

  /** A position has one match of the block pattern or none, and it is the one found. */
  lemma BlockIsThePattern(text: string, p: nat, e: nat)
    requires p <= |text|
    ensures BlockAt(text, p) == Some(e) <==> exists h, c, g :: MatchesBlock(text, p, h, c, g, e)
  {
    hide HeadAt;
    hide MatchesHead;
    hide IndexFrom;
    hide FirstClose;
    hide NearestTail;
    BlockNames();
    if BlockAt(text, p) == Some(e) {
      var h := HeadAt(text, BLOCK_OPENERS, p).value;
      var c := IndexFrom(text, ')', h.open);
      HeadAtIsThePattern(text, BLOCK_OPENERS, h);
      FirstCloseIs(text, h.open, c);
      NearestTailIff(text, c + 1, e);
      var g :| NearestTail(text, c + 1, g, e);
      assert MatchesBlock(text, p, h, c, g, e);
    }
    if exists h, c, g :: MatchesBlock(text, p, h, c, g, e) {
      var h, c: nat, g :| MatchesBlock(text, p, h, c, g, e);
      HeadAtIsThePattern(text, BLOCK_OPENERS, h);
      HeadInText(text, BLOCK_OPENERS, h);
      FirstCloseIs(text, h.open, c);
      NearestTailIff(text, c + 1, e);
    }
  }

  /** From `p` on, `r` is the text without these spans, each a block, with no block begun in between. */
  ghost predicate LeavesOut(text: string, p: nat, spans: seq<(nat, nat)>, r: string)
    decreases |spans|
  {
    if spans == [] then
      p <= |text| && r == text[p..] && forall q :: p <= q < |text| ==> BlockAt(text, q).None?
    else
      var (from, to) := spans[0];
      && p <= from < to <= |text| && BlockAt(text, from) == Some(to)
      && (forall q :: p <= q < from ==> BlockAt(text, q).None?)
      && from - p <= |r| && r[..from - p] == text[p..from] && LeavesOut(text, to, spans[1..], r[from - p..])
  }

  /** Stripping leaves out exactly the blocks, leftmost first, and nothing else. */
  lemma {:induction false} BlocksAreLeftOut(text: string, p: nat) returns (spans: seq<(nat, nat)>)
    requires p <= |text|
    ensures LeavesOut(text, p, spans, StripBlocks(text, p))
    decreases |text| - p
  {
    hide BlockAt;
    if p == |text| {
      spans := [];
    } else if BlockAt(text, p).Some? {
      var rest := BlocksAreLeftOut(text, BlockAt(text, p).value);
      spans := [(p, BlockAt(text, p).value)] + rest;
      assert spans[1..] == rest;
      assert StripBlocks(text, p)[0..] == StripBlocks(text, p);
    } else {
      spans := BlocksAreLeftOut(text, p + 1);
      OneMoreKept(text, p, spans, StripBlocks(text, p + 1));
    }
  }

  /** A text is cleaned of its comments first, then of the blocks that are left. */
  lemma CleanLeavesOut(text: string) returns (spans: seq<(nat, nat)>)
    ensures LeavesOut(StripComments(text), 0, spans, Clean(text))
  {
    spans := BlocksAreLeftOut(StripComments(text), 0);
  }

  lemma OneMoreKept(text: string, p: nat, spans: seq<(nat, nat)>, r: string)
    requires p < |text| && BlockAt(text, p).None? && LeavesOut(text, p + 1, spans, r)
    ensures LeavesOut(text, p, spans, [text[p]] + r)
  {
    hide BlockAt;
    var s := [text[p]] + r;
    if spans == [] {
      assert s == text[p..];
    } else {
      var n := spans[0].0 - p;
      assert s[n..] == r[n - 1..];
      assert s[..n] == [text[p]] + r[..n - 1];
      assert text[p..spans[0].0] == [text[p]] + text[p + 1..spans[0].0];
    }
  }
}
