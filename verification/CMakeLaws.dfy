/** What parsing CMake sources keeps: order of evaluation, fragments, and expanded values. */
module CMakeLaws {
  import opened Text
  import opened CMakeScanner
  import opened ScannerSeams
  import opened CMakeVariables
  import opened CMakeParser
  import T = VariableTemplates

  // ----- sources are read fragment by fragment

  lemma {:induction false} AssignAllIsSequential(a: seq<(string, string)>, b: seq<(string, string)>, env: Env,
      tok: Tokenizer)
    ensures AssignAll(a + b, env, tok) ==
            match AssignAll(a, env, tok) case None => None case Some(mid) => AssignAll(b, mid, tok)
    decreases |a|
  {
    hide Assign;
    if a == [] {
      assert a + b == b;
    } else {
      assert (a + b)[0] == a[0] && (a + b)[1..] == a[1..] + b;
      var lexed := tok(a[0].1);
      if lexed.Some? {
        AssignAllIsSequential(a[1..], b, Assign(lexed.value, env), tok);
      }
    }
  }

  /** Names that no `set` call assigns keep their value, and stay unbound if they were. */
  lemma {:induction false} UnassignedNamesKeep(calls: seq<(string, string)>, env: Env, tok: Tokenizer, name: string)
    requires forall i :: 0 <= i < |calls| && tok(calls[i].1).Some? ==>
               var call := SetCall(tok(calls[i].1).value); call.Some? ==> call.value.0 != name
    ensures match AssignAll(calls, env, tok)
            case None => true
            case Some(last) => (name in last <==> name in env) && (name in env ==> last[name] == env[name])
    decreases |calls|
  {
    hide SetCall;
    if calls != [] {
      var lexed := tok(calls[0].1);
      if lexed.Some? {
        assert SetCall(lexed.value).Some? ==> SetCall(lexed.value).value.0 != name;
        UnassignedNamesKeep(calls[1..], Assign(lexed.value, env), tok, name);
      }
    }
  }

  lemma {:induction false} BreakIgnoresRest(a: string, b: string, p: nat)
    requires p <= |a|
    ensures BreakFrom(a + b, p) == if BreakFrom(a, p) < |a| then BreakFrom(a, p) else BreakFrom(a + b, |a|)
    decreases |a| - p
  {
    if p < |a| && !IsBreak(a[p]) {
      BreakIgnoresRest(a, b, p + 1);
    }
  }

  lemma {:induction false} BreakAfterFirst(a: string, b: string, p: nat)
    requires p <= |b|
    ensures BreakFrom(a + b, |a| + p) == |a| + BreakFrom(b, p)
    decreases |b| - p
  {
    if p < |b| {
      assert (a + b)[|a| + p] == b[p];
      if !IsBreak(b[p]) {
        BreakAfterFirst(a, b, p + 1);
      }
    }
  }

  lemma {:induction false} BreakBefore(a: string, p: nat, q: nat)
    requires p <= q < |a| && IsBreak(a[q])
    ensures BreakFrom(a, p) <= q && IsBreak(a[BreakFrom(a, p)])
    decreases q - p
  {
    if !IsBreak(a[p]) {
      BreakBefore(a, p + 1, q);
    }
  }

  lemma {:induction false} BreakIsBreak(a: string, p: nat)
    requires p <= |a|
    ensures BreakFrom(a, p) < |a| ==> IsBreak(a[BreakFrom(a, p)])
    decreases |a| - p
  {
    if p < |a| && !IsBreak(a[p]) {
      BreakIsBreak(a, p + 1);
    }
  }

  lemma SlicesOfConcat(a: string, b: string, k: nat)
    requires k <= |a|
    ensures (a + b)[..k] == a[..k] && (a + b)[k..] == a[k..] + b
  {
  }

  /** A line without its comment. */
  function Cut(line: string): string {
    line[..IndexFrom(line, '#', 0)]
  }

  /** What comes after the first line. */
  function Rest(text: string): string
    requires BreakFrom(text, 0) < |text|
  {
    text[AfterBreak(text, BreakFrom(text, 0))..]
  }

  lemma FirstLine(text: string)
    requires text != ""
    ensures var k := BreakFrom(text, 0);
            Lines(text) == if k == |text| then [text] else [text[..k]] + Lines(Rest(text))
  {
  }

  lemma LinesOrNone(text: string)
    ensures Lines(text) == [] <==> text == ""
  {
  }

  lemma JoinCons(x: string, ys: seq<string>, sep: string)
    ensures Join([x] + ys, sep) == if ys == [] then x else x + sep + Join(ys, sep)
  {
    assert ([x] + ys)[1..] == ys;
  }

  lemma CutCons(line: string, lines: seq<string>)
    ensures CutComments([line] + lines) == [Cut(line)] + CutComments(lines)
    ensures CutComments(lines) == [] <==> lines == []
  {
  }

  /** Comments are stripped line by line. */
  lemma StripUnfolds(text: string)
    requires text != ""
    ensures var k := BreakFrom(text, 0);
            StripComments(text) ==
            if k == |text| then Cut(text)
            else if Rest(text) == "" then Cut(text[..k])
            else Cut(text[..k]) + "\n" + StripComments(Rest(text))
  {
    hide Lines;
    hide Join;
    hide Cut;
    hide Rest;
    hide CutComments;
    var k := BreakFrom(text, 0);
    FirstLine(text);
    if k == |text| {
      CutCons(text, []);
      JoinCons(Cut(text), CutComments([]), "\n");
      assert [text] + [] == [text];
    } else {
      var rest := Lines(Rest(text));
      LinesOrNone(Rest(text));
      CutCons(text[..k], rest);
      JoinCons(Cut(text[..k]), CutComments(rest), "\n");
    }
  }

  lemma NothingToCut()
    ensures StripComments("") == ""
  {
  }

  /** No comment is open at the end: each `#` is followed by a line break. */
  ghost predicate NoOpenComment(text: string) {
    forall i :: 0 <= i < |text| && text[i] == '#' ==> exists j :: i < j < |text| && IsBreak(text[j])
  }

  /** What stripping leaves between two fragments: a line break, if the first ends with one, unless the
      second completes it or there is nothing more. */
  function SeamOf(a: string, b: string): string {
    if a != "" && b != "" && IsBreak(a[|a| - 1]) && !(a[|a| - 1] == '\r' && b[0] == '\n') then "\n" else ""
  }

  lemma CutAfter(a: string, b: string)
    requires forall i :: 0 <= i < |a| ==> a[i] != '#'
    ensures Cut(a + b) == a + Cut(b)
  {
    var k, t := IndexFrom(b, '#', 0), a + b;
    assert forall i :: 0 <= i < |b| ==> t[|a| + i] == b[i];
    assert forall j :: 0 <= j < |a| ==> t[j] == a[j];
    var n := IndexFrom(t, '#', 0);
    assert n == |a| + k;
    assert t[..n] == a + b[..k];
  }

  lemma UnfinishedLineHasNoComment(a: string)
    requires NoOpenComment(a) && BreakFrom(a, 0) == |a|
    ensures forall i :: 0 <= i < |a| ==> a[i] != '#' && !IsBreak(a[i])
    ensures Cut(a) == a
  {
    hide BreakFrom;
    hide IsBreak;
    forall i | 0 <= i < |a| ensures !IsBreak(a[i]) {
      if IsBreak(a[i]) {
        BreakBefore(a, 0, i);
      }
    }
  }

  /** A first fragment that ends in the middle of a line. */
  lemma StripsIntoLine(a: string, b: string)
    requires a != "" && b != "" && NoOpenComment(a) && BreakFrom(a, 0) == |a|
    ensures StripComments(a + b) == a + StripComments(b) && SeamOf(a, b) == ""
  {
    hide StripComments;
    hide BreakFrom;
    hide Cut;
    hide IsBreak;
    hide NoOpenComment;
    hide Rest;
    var t, k := a + b, BreakFrom(b, 0);
    UnfinishedLineHasNoComment(a);
    IntoLine(a, b);
    StripUnfolds(t);
    StripUnfolds(b);
    CutAfter(a, b[..k]);
    if k < |b| {
      Associates(a, Cut(b[..k]), "\n");
      Associates(a, Cut(b[..k]) + "\n", StripComments(Rest(b)));
    } else {
      assert b[..k] == b && t[..|a| + k] == t;
    }
  }

  lemma DropsFirst(a: string, b: string, n: nat)
    requires n <= |b|
    ensures (a + b)[|a| + n..] == b[n..] && (a + b)[..|a| + n] == a + b[..n]
  {
  }

  lemma IntoLine(a: string, b: string)
    requires BreakFrom(a, 0) == |a|
    ensures var t, k := a + b, BreakFrom(b, 0);
            && BreakFrom(t, 0) == |a| + k && t[..|a| + k] == a + b[..k] && (k < |b| ==> Rest(t) == Rest(b))
  {
    hide BreakFrom;
    var t, k := a + b, BreakFrom(b, 0);
    BreakIgnoresRest(a, b, 0);
    BreakAfterFirst(a, b, 0);
    DropsFirst(a, b, k);
    if k < |b| {
      DropsFirst(a, b, AfterBreak(b, k));
      assert t[|a| + k] == b[k] && (k + 1 < |b| ==> t[|a| + k + 1] == b[k + 1]);
      assert AfterBreak(t, |a| + k) == |a| + AfterBreak(b, k);
    }
  }

  lemma SeamOfRest(a: string, b: string)
    requires BreakFrom(a, 0) < |a| && Rest(a) != "" && NoOpenComment(a)
    ensures SeamOf(Rest(a), b) == SeamOf(a, b) && NoOpenComment(Rest(a)) && |Rest(a)| < |a|
  {
    hide BreakFrom;
    hide IsBreak;
    var n := AfterBreak(a, BreakFrom(a, 0));
    var r := Rest(a);
    assert r[|r| - 1] == a[|a| - 1];
    forall i | 0 <= i < |r| && r[i] == '#' ensures exists j :: i < j < |r| && IsBreak(r[j]) {
      assert a[n + i] == '#';
      var j :| n + i < j < |a| && IsBreak(a[j]);
      assert r[j - n] == a[j];
    }
  }

  lemma SplitBreakRests(a: string, b: string)
    requires a != "" && b != "" && BreakFrom(a, 0) == |a| - 1 && a[|a| - 1] == '\r' && b[0] == '\n'
    ensures var t := a + b;
            && BreakFrom(t, 0) == |a| - 1 && t[..|a| - 1] == a[..|a| - 1] && BreakFrom(b, 0) == 0
            && Rest(a) == "" && Rest(t) == b[1..] && Rest(b) == b[1..]
  {
    hide BreakFrom;
    BreakIgnoresRest(a, b, 0);
    SlicesOfConcat(a, b, |a| - 1);
    EmptyLine(b);
    var t := a + b;
    assert t[|a| - 1] == '\r' && t[|a|] == '\n';
    assert AfterBreak(a, |a| - 1) == |a| && AfterBreak(t, |a| - 1) == |a| + 1 && AfterBreak(b, 0) == 1;
    assert t[|a| + 1..] == b[1..];
  }

  lemma Associates(x: string, y: string, z: string)
    ensures x + y + z == x + (y + z) && "" + (y + z) == y + z && x + "" == x
  {
  }

  /** A first line that the second fragment completes with the rest of its line break. */
  lemma StripsAtSplitBreak(a: string, b: string)
    requires a != "" && b != "" && BreakFrom(a, 0) == |a| - 1 && a[|a| - 1] == '\r' && b[0] == '\n'
    ensures StripComments(a + b) == StripComments(a) + StripComments(b)
  {
    hide StripComments;
    hide Cut;
    hide Rest;
    hide BreakFrom;
    hide IsBreak;
    BreaksBreak();
    SplitBreakRests(a, b);
    StripUnfolds(a + b);
    StripUnfolds(a);
    StripUnfolds(b);
    EmptyLine(b);
    var first, rest := Cut(a[..|a| - 1]), StripComments(b[1..]);
    Associates(first, "\n", rest);
    Associates("", "\n", rest);
  }

  lemma EmptyLine(b: string)
    requires b != "" && IsBreak(b[0])
    ensures BreakFrom(b, 0) == 0 && Cut(b[..0]) == ""
  {
  }

  lemma RestOfConcat(a: string, b: string)
    requires BreakFrom(a, 0) < |a| && b != ""
    requires !(BreakFrom(a, 0) == |a| - 1 && a[|a| - 1] == '\r' && b[0] == '\n')
    ensures BreakFrom(a + b, 0) == BreakFrom(a, 0) && Rest(a + b) == Rest(a) + b
    ensures (a + b)[..BreakFrom(a, 0)] == a[..BreakFrom(a, 0)]
  {
    hide BreakFrom;
    var k := BreakFrom(a, 0);
    BreakIgnoresRest(a, b, 0);
    SlicesOfConcat(a, b, k);
    SlicesOfConcat(a, b, AfterBreak(a, k));
    assert (a + b)[k] == a[k];
    assert AfterBreak(a + b, k) == AfterBreak(a, k);
  }

  lemma SeamAfterLine(a: string, b: string)
    requires BreakFrom(a, 0) < |a| && Rest(a) == "" && b != ""
    requires !(BreakFrom(a, 0) == |a| - 1 && a[|a| - 1] == '\r' && b[0] == '\n')
    ensures SeamOf(a, b) == "\n"
  {
    hide BreakFrom;
    hide IsBreak;
    hide Rest;
    LastBreak(a);
  }

  lemma LastBreak(a: string)
    requires BreakFrom(a, 0) < |a| && Rest(a) == ""
    ensures IsBreak(a[|a| - 1]) && (a[|a| - 1] == '\r' ==> BreakFrom(a, 0) == |a| - 1)
  {
    hide BreakFrom;
    hide IsBreak;
    BreakIsBreak(a, 0);
    BreaksBreak();
    var k := BreakFrom(a, 0);
    var n := AfterBreak(a, k);
    assert |a[n..]| == |a| - n;
    assert n == |a|;
  }

  lemma BreaksBreak()
    ensures IsBreak('\n') && IsBreak('\r')
  {
  }

  /** Comments are stripped fragment by fragment, wherever the text is cut, as long as no comment is open
      there. */
  lemma {:induction false} CommentsAreLocal(a: string, b: string)
    requires NoOpenComment(a)
    ensures StripComments(a + b) == StripComments(a) + (SeamOf(a, b) + StripComments(b))
    decreases |a|
  {
    hide StripComments;
    hide BreakFrom;
    hide Cut;
    hide Rest;
    hide IsBreak;
    hide NoOpenComment;
    NothingToCut();
    if a == "" {
      assert a + b == b && SeamOf(a, b) == "";
      assert "" + ("" + StripComments(b)) == StripComments(b);
    } else if b == "" {
      assert a + b == a && SeamOf(a, b) == "";
      assert StripComments(a) + ("" + "") == StripComments(a);
    } else if BreakFrom(a, 0) == |a| {
      StripsIntoLine(a, b);
      StripUnfolds(a);
      UnfinishedLineHasNoComment(a);
      assert "" + StripComments(b) == StripComments(b);
    } else if BreakFrom(a, 0) == |a| - 1 && a[|a| - 1] == '\r' && b[0] == '\n' {
      StripsAtSplitBreak(a, b);
      assert SeamOf(a, b) == "" && "" + StripComments(b) == StripComments(b);
    } else if Rest(a) == "" {
      StripsLine(a, b);
    } else {
      SeamOfRest(a, b);
      CommentsAreLocal(Rest(a), b);
      StripsFirstLine(a, b, SeamOf(a, b) + StripComments(b));
    }
  }

  lemma StripsLine(a: string, b: string)
    requires BreakFrom(a, 0) < |a| && Rest(a) == "" && b != ""
    requires !(BreakFrom(a, 0) == |a| - 1 && a[|a| - 1] == '\r' && b[0] == '\n')
    ensures StripComments(a + b) == StripComments(a) + (SeamOf(a, b) + StripComments(b))
  {
    hide StripComments;
    hide BreakFrom;
    hide Cut;
    hide Rest;
    hide SeamOf;
    RestOfConcat(a, b);
    StripUnfolds(a);
    StripUnfolds(a + b);
    SeamAfterLine(a, b);
    assert "" + b == b;
    Associates(Cut(a[..BreakFrom(a, 0)]), "\n", StripComments(b));
  }

  lemma StripsFirstLine(a: string, b: string, c: string)
    requires BreakFrom(a, 0) < |a| && Rest(a) != "" && b != ""
    requires StripComments(Rest(a) + b) == StripComments(Rest(a)) + c
    ensures StripComments(a + b) == StripComments(a) + c
  {
    hide StripComments;
    hide BreakFrom;
    hide Cut;
    hide Rest;
    StripsRest(a, b);
    RestOfConcat(a, b);
    StripUnfolds(a);
    StripUnfolds(a + b);
    Associates(Cut(a[..BreakFrom(a, 0)]) + "\n", StripComments(Rest(a)), c);
  }

  lemma StripsRest(a: string, b: string)
    requires BreakFrom(a, 0) < |a| && Rest(a) != "" && b != ""
    ensures !(BreakFrom(a, 0) == |a| - 1 && a[|a| - 1] == '\r' && b[0] == '\n') && Rest(a) + b != ""
  {
    hide BreakFrom;
  }

  /** The text holds no function or macro block. */
  ghost predicate NoBlocks(text: string) {
    forall p :: 0 <= p < |text| ==> BlockAt(text, p).None?
  }

  lemma {:induction false} NothingToStrip(text: string, p: nat)
    requires p <= |text| && NoBlocks(text)
    ensures StripBlocks(text, p) == text[p..]
    decreases |text| - p
  {
    hide BlockAt;
    if p < |text| {
      NothingToStrip(text, p + 1);
    }
  }

  lemma NewlineAddsNoCall(text: string, names: set<string>)
    requires CallNames(names)
    ensures Yields(Scan("\n" + text, names, 0)) == Yields(Scan(text, names, 0))
  {
    hide Scan;
    hide CallNames;
    var t := "\n" + text;
    assert t[0] == '\n';
    NewlineIsNoHead(t, names);
    SameHeadSameScan(t, names, 0, 1);
    ScanAfterSeam("\n", text, names, 0);
  }

  lemma NewlineIsNoHead(t: string, names: set<string>)
    requires CallNames(names) && t != "" && t[0] == '\n'
    ensures HeadAt(t, names, 0).None? && FindHead(t, names, 0) == FindHead(t, names, 1)
  {
    assert WordEnd(t, 0) == 0;
  }

  /** Reading two fragments in a row is reading the second from the variables the first leaves, wherever
      the text is cut: the first leaves no call and no comment open, the seam neither splits a word nor
      makes a call, and there is no function or macro block. */
  lemma VariablesAreSequential(a: string, b: string, env: Env, tok: Tokenizer)
    requires NoOpenComment(a)
    requires NoBlocks(StripComments(a)) && NoBlocks(StripComments(b)) && NoBlocks(StripComments(a + b))
    requires AllClosed(StripComments(a), SET, 0)
    requires CleanSeam(StripComments(a), SeamOf(a, b) + StripComments(b), SET)
    ensures Variables(a + b, env, tok) ==
            match Variables(a, env, tok) case None => None case Some(mid) => Variables(b, mid, tok)
  {
    hide StripComments;
    hide NoBlocks;
    hide CleanSeam;
    hide AllClosed;
    hide Scan;
    hide StripBlocks;
    hide Yields;
    hide AssignAll;
    var ca, cb := StripComments(a), StripComments(b);
    NothingToStrip(ca, 0);
    NothingToStrip(cb, 0);
    NothingToStrip(StripComments(a + b), 0);
    CommentsAreLocal(a, b);
    YieldsAreSequential(ca, SeamOf(a, b) + cb, SET);
    NewlineAddsNoCall(cb, SET);
    assert "" + cb == cb;
    AssignAllIsSequential(Yields(Scan(ca, SET, 0)), Yields(Scan(cb, SET, 0)), env, tok);
  }

  // ----- variables are expanded when they are set

  /** `s` holds none of the characters `marks`. */
  ghost predicate Free(s: string, marks: set<char>) {
    forall i :: 0 <= i < |s| ==> s[i] !in marks
  }

  ghost predicate EnvFree(env: Env, marks: set<char>) {
    forall n :: n in env ==> Free(env[n], marks)
  }

  /** Plain text, free of the marks, and references. */
  ghost predicate TemplateFree(t: T.Template, marks: set<char>) {
    T.TemplateOk(t) && forall i :: 0 <= i < |t| && t[i].Lit? ==> Free(t[i].text, marks)
  }

  ghost predicate Bound(t: T.Template, env: Env) {
    forall i :: 0 <= i < |t| && t[i].Ref? ==> t[i].name in env
  }

  /** The value of a template in an environment, read once. */
  function Eval(t: T.Template, env: Env): string {
    if t == [] then ""
    else (if t[0].Ref? && t[0].name in env then env[t[0].name] else T.PrintPiece(t[0])) + Eval(t[1..], env)
  }

  lemma {:induction false} RoundIsEval(t: T.Template, env: Env)
    requires T.TemplateOk(t)
    ensures Round(T.Print(t), env) == Eval(t, env)
    decreases |t|
  {
    if t != [] {
      var rest := T.Print(t[1..]);
      RoundIsEval(t[1..], env);
      assert T.PieceOk(t[0]);
      match t[0]
      case Lit(text) => PlainPasses(text, rest, env);
      case Ref(name) => WrittenRef(name, rest, env);
    }
  }

  lemma {:induction false} EvalIsFree(t: T.Template, env: Env, marks: set<char>)
    requires TemplateFree(t, marks) && EnvFree(env, marks) && Bound(t, env)
    ensures Free(Eval(t, env), marks)
    decreases |t|
  {
    if t != [] {
      assert Free(if t[0].Ref? then env[t[0].name] else t[0].text, marks);
      EvalIsFree(t[1..], env, marks);
    }
  }

  lemma FreeConcat(s: string, t: string, marks: set<char>)
    ensures Free(s + t, marks) <==> Free(s, marks) && Free(t, marks)
  {
    if Free(s + t, marks) {
      assert forall i :: 0 <= i < |s| ==> s[i] == (s + t)[i];
      assert forall i :: 0 <= i < |t| ==> t[i] == (s + t)[i + |s|];
    }
  }

  lemma BoundCons(t: T.Template, env: Env)
    requires t != []
    ensures Bound(t, env) <==> (t[0].Ref? ==> t[0].name in env) && Bound(t[1..], env)
  {
    assert t == [t[0]] + t[1..];
  }

  /** A value is free of `$` after its `set` exactly when all it refers to was bound before. */
  lemma {:induction false} EvalIsFreeIff(t: T.Template, env: Env)
    requires TemplateFree(t, {'$'}) && EnvFree(env, {'$'})
    ensures Free(Eval(t, env), {'$'}) <==> Bound(t, env)
    decreases |t|
  {
    hide Bound;
    if t == [] {
      NothingIsBound(env);
    } else {
      var first := if t[0].Ref? && t[0].name in env then env[t[0].name] else T.PrintPiece(t[0]);
      EvalIsFreeIff(t[1..], env);
      BoundCons(t, env);
      FreeConcat(first, Eval(t[1..], env), {'$'});
      if t[0].Ref? && t[0].name !in env {
        assert first[0] == '$';
      }
    }
  }

  lemma NothingIsBound(env: Env)
    ensures Bound([], env)
  {
  }

  /** Over values free of `$`, expansion is one reading of the template. */
  lemma ExpandIsEval(t: T.Template, env: Env)
    requires T.TemplateOk(t) && EnvFree(env, {'$'})
    ensures Expand(T.Print(t), env) == Eval(t, env)
  {
    hide T.Print;
    hide Eval;
    hide Round;
    var once := Eval(t, env);
    RoundIsEval(t, env);
    EvalIsFixed(t, env);
    assert Rounds(T.Print(t), env, 0) == T.Print(t);
    assert Rounds(T.Print(t), env, 1) == once;
    FixedStaysFixed(T.Print(t), env, 1, ROUNDS);
  }

  lemma {:induction false} EvalIsFixed(t: T.Template, env: Env)
    requires T.TemplateOk(t) && EnvFree(env, {'$'})
    ensures Round(Eval(t, env), env) == Eval(t, env)
    decreases |t|
  {
    if t != [] {
      var rest := Eval(t[1..], env);
      EvalIsFixed(t[1..], env);
      assert T.PieceOk(t[0]);
      if t[0].Ref? && t[0].name !in env {
        WrittenRef(t[0].name, rest, env);
      } else {
        var first := if t[0].Ref? then env[t[0].name] else t[0].text;
        assert Free(first, {'$'});
        PlainPasses(first, rest, env);
      }
    }
  }

  /** A `set` call as the environment sees it. */
  datatype Assignment = Assignment(name: string, value: T.Template)

  /** What a `set` call that assigns this template amounts to; without one it assigns nothing. */
  function Written(a: Option<Assignment>): Option<(string, string)> {
    match a
    case None => None
    case Some(s) => Some((s.name, T.Print(s.value)))
  }

  ghost predicate AssignsOne(call: (string, string), a: Option<Assignment>, tok: Tokenizer) {
    tok(call.1).Some? && SetCall(tok(call.1).value) == Written(a)
  }

  ghost predicate Assigns(calls: seq<(string, string)>, sets: seq<Option<Assignment>>, tok: Tokenizer) {
    |calls| == |sets| && forall i :: 0 <= i < |calls| ==> AssignsOne(calls[i], sets[i], tok)
  }

  function EvalOne(a: Option<Assignment>, env: Env): Env {
    match a
    case None => env
    case Some(s) => env[s.name := Eval(s.value, env)]
  }

  /** Evaluation in source order, each value read in the environment the earlier ones leave. */
  function EvalAll(sets: seq<Option<Assignment>>, env: Env): Env {
    if sets == [] then env else EvalAll(sets[1..], EvalOne(sets[0], env))
  }

  /** Every assigned value is free of the marks and refers only to names bound before it. */
  ghost predicate InOrder(sets: seq<Option<Assignment>>, env: Env, marks: set<char>)
    decreases |sets|
  {
    sets == [] ||
    ((sets[0].Some? ==> TemplateFree(sets[0].value.value, marks) && Bound(sets[0].value.value, env)) &&
     InOrder(sets[1..], EvalOne(sets[0], env), marks))
  }

  lemma OneIsEager(call: (string, string), a: Option<Assignment>, env: Env, marks: set<char>, tok: Tokenizer)
    requires '$' in marks && EnvFree(env, marks) && AssignsOne(call, a, tok)
    requires a.Some? ==> TemplateFree(a.value.value, marks) && Bound(a.value.value, env)
    ensures tok(call.1).Some? && Assign(tok(call.1).value, env) == EvalOne(a, env) && EnvFree(EvalOne(a, env), marks)
  {
    hide SetCall;
    hide T.Print;
    hide Eval;
    hide Expand;
    if a.Some? {
      ExpandIsEval(a.value.value, env);
      EvalIsFree(a.value.value, env, marks);
    }
  }

  /** If the initial values are free of `$` (and of any further marks) and every value refers only to
      names bound before it, every stored value is the in-order evaluation and stays free of them. */
  lemma {:induction false} VariablesAreEager(
    calls: seq<(string, string)>, sets: seq<Option<Assignment>>, env: Env, marks: set<char>, tok: Tokenizer)
    requires '$' in marks && EnvFree(env, marks) && Assigns(calls, sets, tok) && InOrder(sets, env, marks)
    ensures AssignAll(calls, env, tok) == Some(EvalAll(sets, env)) && EnvFree(EvalAll(sets, env), marks)
    decreases |calls|
  {
    hide SetCall;
    hide T.Print;
    hide Eval;
    hide Expand;
    hide EnvFree;
    hide TemplateFree;
    hide EvalOne;
    if calls != [] {
      assert AssignsOne(calls[0], sets[0], tok) && Assigns(calls[1..], sets[1..], tok);
      OneIsEager(calls[0], sets[0], env, marks, tok);
      VariablesAreEager(calls[1..], sets[1..], EvalOne(sets[0], env), marks, tok);
    }
  }

  /** So it is for the `set` calls of a text. */
  lemma TextIsEager(text: string, sets: seq<Option<Assignment>>, env: Env, marks: set<char>, tok: Tokenizer)
    requires '$' in marks && EnvFree(env, marks) && InOrder(sets, env, marks)
    requires Assigns(Yields(Scan(Clean(text), SET, 0)), sets, tok)
    ensures Variables(text, env, tok) == Some(EvalAll(sets, env)) && EnvFree(EvalAll(sets, env), marks)
  {
    hide Assigns;
    hide InOrder;
    hide EnvFree;
    hide EvalAll;
    hide AssignAll;
    VariablesAreEager(Yields(Scan(Clean(text), SET, 0)), sets, env, marks, tok);
  }

  // ----- links

  /** Over plain variables, a token of a link call becomes a link item exactly when it is no keyword
      once expanded and all it refers to is defined: no placeholder is ever linked. */
  lemma LinkItemIff(token: string, env: Env)
    requires PlainValues(env)
    ensures IsLinkItem(Expand(token, env)) <==>
            Upper(Expand(token, env)) !in LINK_KEYWORDS && forall n :: n in Refs(token) ==> n in env
  {
    PlainExpansion(token, env);
    UndefinedIsEmptyIff(Refs(token), env);
  }

  lemma {:induction false} UndefinedIsEmptyIff(names: seq<string>, env: Env)
    ensures Undefined(names, env) == [] <==> forall n :: n in names ==> n in env
    decreases |names|
  {
    if names != [] {
      UndefinedIsEmptyIff(names[1..], env);
      assert names == [names[0]] + names[1..];
    }
  }

  /** Parsing collects the links and targets of exactly the calls found. */
  lemma {:induction false} ParsedIff(calls: seq<(string, string)>, env: Env, tok: Tokenizer, link: TargetLink,
      decl: TargetDecl)
    requires ParseCalls(calls, env, tok).Some?
    ensures var p := ParseCalls(calls, env, tok).value;
            && (link in p.links <==> exists c :: c in calls && CallLinks(c, env, tok, link))
            && (decl in p.targets <==> exists c :: c in calls && CallDeclares(c, env, tok, decl))
    decreases |calls|
  {
    hide ExpandAll;
    hide LinksOf;
    hide DeclOf;
    if calls != [] {
      ParsedIff(calls[1..], env, tok, link, decl);
      var p, rest := ParseCalls(calls, env, tok).value, ParseCalls(calls[1..], env, tok).value;
      assert link in p.links <==> CallLinks(calls[0], env, tok, link) || link in rest.links;
      assert decl in p.targets <==> CallDeclares(calls[0], env, tok, decl) || decl in rest.targets;
      assert calls == [calls[0]] + calls[1..];
      assert forall c :: c in calls <==> c == calls[0] || c in calls[1..];
    }
  }

  ghost predicate CallLinks(call: (string, string), env: Env, tok: Tokenizer, link: TargetLink) {
    match tok(call.1)
    case None => false
    case Some(raw) => var tokens := ExpandAll(raw, env); tokens != [] && link in LinksOf(call.0, tokens)
  }

  ghost predicate CallDeclares(call: (string, string), env: Env, tok: Tokenizer, decl: TargetDecl) {
    match tok(call.1)
    case None => false
    case Some(raw) => var tokens := ExpandAll(raw, env); tokens != [] && decl in DeclOf(call.0, tokens)
  }
}
