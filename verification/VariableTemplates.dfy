/** Expansion of structured values: how far twenty rounds of substitution reach. */
module VariableTemplates {
  import opened CMakeVariables

  datatype Piece = Lit(text: string) | Ref(name: string)

  type Template = seq<Piece>
  type Templates = map<string, Template>

  /** Literals hold no `$`; reference names are non-empty and hold no `}`. */
  predicate PieceOk(p: Piece) {
    match p
    case Lit(text) => forall i :: 0 <= i < |text| ==> text[i] != '$'
    case Ref(name) => name != "" && forall i :: 0 <= i < |name| ==> name[i] != '}'
  }

  predicate TemplateOk(t: Template) {
    forall i :: 0 <= i < |t| ==> PieceOk(t[i])
  }

  ghost predicate TemplatesOk(ts: Templates) {
    forall n :: n in ts ==> TemplateOk(ts[n])
  }

  function PrintPiece(p: Piece): string {
    match p
    case Lit(text) => text
    case Ref(name) => "${" + name + "}"
  }

  function Print(t: Template): string {
    if t == [] then "" else PrintPiece(t[0]) + Print(t[1..])
  }

  function Printed(ts: Templates): Env {
    map n | n in ts :: Print(ts[n])
  }

  function Names(t: Template): seq<string> {
    if t == [] then [] else (if t[0].Ref? then [t[0].name] else []) + Names(t[1..])
  }

  /** A defined reference becomes its value; anything else stays. */
  function Replaced(p: Piece, ts: Templates): Template {
    if p.Ref? && p.name in ts then ts[p.name] else [p]
  }

  /** One substitution on pieces. */
  function Substitute(t: Template, ts: Templates): Template {
    if t == [] then []
    else Replaced(t[0], ts) + Substitute(t[1..], ts)
  }

  function SubstituteTimes(t: Template, ts: Templates, k: nat): Template {
    if k == 0 then t else Substitute(SubstituteTimes(t, ts, k - 1), ts)
  }

  /** Every chain of defined references that starts in `t` has at most `k` links. */
  ghost predicate ChainsWithin(t: Template, ts: Templates, k: nat)
    decreases k
  {
    forall i :: 0 <= i < |t| && t[i].Ref? && t[i].name in ts ==> k > 0 && ChainsWithin(ts[t[i].name], ts, k - 1)
  }

  /** Full recursive expansion: every defined reference replaced by the full expansion of its value. */
  function Resolve(t: Template, ts: Templates, ghost k: nat): string
    requires ChainsWithin(t, ts, k)
    decreases k, |t|
  {
    if t == [] then ""
    else
      assert forall i :: 0 <= i < |t[1..]| ==> t[1..][i] == t[i + 1];
      (if t[0].Ref? && t[0].name in ts then Resolve(ts[t[0].name], ts, k - 1) else PrintPiece(t[0]))
      + Resolve(t[1..], ts, k)
  }

  // ----- rounds on text are substitutions on pieces

  lemma PrintCons(t: Template)
    requires t != []
    ensures Print(t) == PrintPiece(t[0]) + Print(t[1..])
    ensures Names(t) == (if t[0].Ref? then [t[0].name] else []) + Names(t[1..])
  {
  }

  lemma {:induction false} PrintConcat(s: Template, t: Template)
    ensures Print(s + t) == Print(s) + Print(t) && Names(s + t) == Names(s) + Names(t)
    decreases |s|
  {
    hide PrintPiece;
    if s == [] {
      assert s + t == t;
    } else {
      hide Print;
      hide Names;
      assert (s + t)[0] == s[0] && (s + t)[1..] == s[1..] + t;
      PrintConcat(s[1..], t);
      PrintCons(s);
      PrintCons(s + t);
    }
  }

  lemma {:induction false} RoundIsSubstitute(t: Template, ts: Templates)
    requires TemplateOk(t)
    ensures Round(Print(t), Printed(ts)) == Print(Substitute(t, ts))
    ensures Refs(Print(t)) == Names(t)
    decreases |t|
  {
    if t != [] {
      var rest := Print(t[1..]);
      RoundIsSubstitute(t[1..], ts);
      assert PieceOk(t[0]);
      match t[0]
      case Lit(text) =>
        PlainPasses(text, rest, Printed(ts));
        PrintConcat([t[0]], Substitute(t[1..], ts));
        assert Print([t[0]]) == text + "";
      case Ref(name) =>
        WrittenRef(name, rest, Printed(ts));
        PrintConcat(if name in ts then ts[name] else [t[0]], Substitute(t[1..], ts));
        assert Print([t[0]]) == PrintPiece(t[0]) + "";
    }
  }

  lemma {:induction false} SubstituteOk(t: Template, ts: Templates)
    requires TemplateOk(t) && TemplatesOk(ts)
    ensures TemplateOk(Substitute(t, ts))
    decreases |t|
  {
    if t != [] {
      SubstituteOk(t[1..], ts);
    }
  }

  lemma {:induction false} RoundsAreSubstitutions(t: Template, ts: Templates, k: nat)
    requires TemplateOk(t) && TemplatesOk(ts)
    ensures TemplateOk(SubstituteTimes(t, ts, k))
    ensures Rounds(Print(t), Printed(ts), k) == Print(SubstituteTimes(t, ts, k))
    decreases k
  {
    if k > 0 {
      RoundsAreSubstitutions(t, ts, k - 1);
      SubstituteOk(SubstituteTimes(t, ts, k - 1), ts);
      RoundIsSubstitute(SubstituteTimes(t, ts, k - 1), ts);
    }
  }

  // ----- how far k rounds reach

  lemma ChainsOfConcat(s: Template, t: Template, ts: Templates, k: nat)
    ensures ChainsWithin(s + t, ts, k) <==> ChainsWithin(s, ts, k) && ChainsWithin(t, ts, k)
  {
    var u := s + t;
    assert forall i :: 0 <= i < |s| ==> u[i] == s[i];
    assert forall i :: 0 <= i < |t| ==> u[i + |s|] == t[i];
    assert forall i :: |s| <= i < |u| ==> u[i] == t[i - |s|];
  }

  lemma {:induction false} SubstituteShortens(t: Template, ts: Templates, k: nat)
    ensures ChainsWithin(t, ts, k + 1) <==> ChainsWithin(Substitute(t, ts), ts, k)
    decreases |t|
  {
    hide ChainsWithin;
    if t == [] {
      NoChains(ts, k + 1);
      NoChains(ts, k);
    } else {
      SubstituteShortens(t[1..], ts, k);
      assert t == [t[0]] + t[1..];
      ChainsOfConcat([t[0]], t[1..], ts, k + 1);
      ChainsOfConcat(Replaced(t[0], ts), Substitute(t[1..], ts), ts, k);
      OneLinkLess(t[0], ts, k);
    }
  }

  lemma NoChains(ts: Templates, k: nat)
    ensures ChainsWithin([], ts, k)
  {
  }

  lemma OneLinkLess(p: Piece, ts: Templates, k: nat)
    ensures ChainsWithin([p], ts, k + 1) <==> ChainsWithin(Replaced(p, ts), ts, k)
  {
    var t := [p];
    assert t[0] == p;
    if p.Ref? && p.name in ts && ChainsWithin(t, ts, k + 1) {
      assert ChainsWithin(ts[t[0].name], ts, k);
    }
  }

  lemma {:induction false} ChainsAfterRounds(t: Template, ts: Templates, k: nat, m: nat)
    ensures ChainsWithin(t, ts, k + m) <==> ChainsWithin(SubstituteTimes(t, ts, k), ts, m)
    decreases k
  {
    if k > 0 {
      ChainsAfterRounds(t, ts, k - 1, m + 1);
      SubstituteShortens(SubstituteTimes(t, ts, k - 1), ts, m);
    }
  }

  lemma {:induction false} NoChainsNoDefinedNames(t: Template, ts: Templates)
    ensures ChainsWithin(t, ts, 0) <==> forall n :: n in Names(t) ==> n !in ts
    decreases |t|
  {
    if t != [] {
      NoChainsNoDefinedNames(t[1..], ts);
      assert t == [t[0]] + t[1..];
      ChainsOfConcat([t[0]], t[1..], ts, 0);
    }
  }

  /** Expansion leaves no defined reference behind exactly when every chain has at most twenty links. */
  lemma ExpansionIsCompleteIff(t: Template, ts: Templates)
    requires TemplateOk(t) && TemplatesOk(ts)
    ensures (forall n :: n in Refs(Expand(Print(t), Printed(ts))) ==> n !in ts) <==> ChainsWithin(t, ts, ROUNDS)
  {
    hide ChainsWithin;
    hide SubstituteTimes;
    hide Rounds;
    hide Refs;
    hide Print;
    hide Names;
    var u := SubstituteTimes(t, ts, ROUNDS);
    RoundsAreSubstitutions(t, ts, ROUNDS);
    RoundIsSubstitute(u, ts);
    ChainsAfterRounds(t, ts, ROUNDS, 0);
    NoChainsNoDefinedNames(u, ts);
  }

  // ----- and what it computes then

  lemma {:induction false} ResolveConcat(s: Template, t: Template, ts: Templates, k: nat)
    requires ChainsWithin(s, ts, k) && ChainsWithin(t, ts, k)
    ensures ChainsWithin(s + t, ts, k) && Resolve(s + t, ts, k) == Resolve(s, ts, k) + Resolve(t, ts, k)
    decreases |s|
  {
    hide ChainsWithin;
    hide Resolve;
    ChainsOfConcat(s, t, ts, k);
    if s == [] {
      assert s + t == t;
      ResolveNothing(ts, k);
      assert "" + Resolve(t, ts, k) == Resolve(t, ts, k);
    } else {
      assert (s + t)[0] == s[0] && (s + t)[1..] == s[1..] + t;
      ChainsOfFirst(s, ts, k);
      ChainsOfFirst(s + t, ts, k);
      ResolveConcat(s[1..], t, ts, k);
      ResolveFirst(s, ts, k);
      ResolveFirst(s + t, ts, k);
    }
  }

  lemma ChainsOfFirst(t: Template, ts: Templates, k: nat)
    requires t != [] && ChainsWithin(t, ts, k)
    ensures ChainsWithin([t[0]], ts, k) && ChainsWithin(t[1..], ts, k)
  {
    hide ChainsWithin;
    assert t == [t[0]] + t[1..];
    ChainsOfConcat([t[0]], t[1..], ts, k);
  }

  lemma ResolveNothing(ts: Templates, k: nat)
    ensures ChainsWithin([], ts, k) && Resolve([], ts, k) == ""
  {
  }

  lemma ResolveFirst(t: Template, ts: Templates, k: nat)
    requires t != [] && ChainsWithin(t, ts, k) && ChainsWithin([t[0]], ts, k) && ChainsWithin(t[1..], ts, k)
    ensures Resolve(t, ts, k) == Resolve([t[0]], ts, k) + Resolve(t[1..], ts, k)
  {
    assert [t[0]][1..] == [];
  }

  /** The bound only witnesses that expansion ends; it does not change the result. */
  lemma {:induction false} ResolveIgnoresBound(t: Template, ts: Templates, j: nat, k: nat)
    requires ChainsWithin(t, ts, j) && ChainsWithin(t, ts, k)
    ensures Resolve(t, ts, j) == Resolve(t, ts, k)
    decreases j, |t|
  {
    if t != [] {
      assert t == [t[0]] + t[1..];
      ChainsOfConcat([t[0]], t[1..], ts, j);
      ChainsOfConcat([t[0]], t[1..], ts, k);
      ResolveIgnoresBound(t[1..], ts, j, k);
      if t[0].Ref? && t[0].name in ts {
        ResolveIgnoresBound(ts[t[0].name], ts, j - 1, k - 1);
      }
    }
  }

  lemma {:induction false} SubstituteKeepsMeaning(t: Template, ts: Templates, k: nat)
    requires ChainsWithin(t, ts, k + 1)
    ensures ChainsWithin(Substitute(t, ts), ts, k)
    ensures Resolve(Substitute(t, ts), ts, k) == Resolve(t, ts, k + 1)
    decreases |t|
  {
    SubstituteShortens(t, ts, k);
    if t != [] {
      var first := if t[0].Ref? && t[0].name in ts then ts[t[0].name] else [t[0]];
      var rest := Substitute(t[1..], ts);
      assert t == [t[0]] + t[1..];
      ChainsOfConcat([t[0]], t[1..], ts, k + 1);
      ChainsOfConcat(first, rest, ts, k);
      SubstituteKeepsMeaning(t[1..], ts, k);
      ResolveConcat(first, rest, ts, k);
      if first == [t[0]] && !(t[0].Ref? && t[0].name in ts) {
        assert Resolve(first, ts, k) == PrintPiece(t[0]) + "";
      }
    }
  }

  lemma {:induction false} RoundsKeepMeaning(t: Template, ts: Templates, k: nat, m: nat)
    requires ChainsWithin(t, ts, k + m)
    ensures ChainsWithin(SubstituteTimes(t, ts, k), ts, m)
    ensures Resolve(SubstituteTimes(t, ts, k), ts, m) == Resolve(t, ts, k + m)
    decreases k
  {
    hide ChainsWithin;
    hide Resolve;
    hide Substitute;
    if k > 0 {
      RoundsKeepMeaning(t, ts, k - 1, m + 1);
      SubstituteKeepsMeaning(SubstituteTimes(t, ts, k - 1), ts, m);
    }
  }

  lemma {:induction false} NothingToResolve(t: Template, ts: Templates)
    requires ChainsWithin(t, ts, 0)
    ensures Resolve(t, ts, 0) == Print(t)
    decreases |t|
  {
    if t != [] {
      assert t == [t[0]] + t[1..];
      ChainsOfConcat([t[0]], t[1..], ts, 0);
      NothingToResolve(t[1..], ts);
    }
  }

  /** Within twenty links, the loop computes the full recursive expansion. */
  lemma ExpansionIsResolution(t: Template, ts: Templates)
    requires TemplateOk(t) && TemplatesOk(ts) && ChainsWithin(t, ts, ROUNDS)
    ensures Expand(Print(t), Printed(ts)) == Resolve(t, ts, ROUNDS)
  {
    RoundsAreSubstitutions(t, ts, ROUNDS);
    RoundsKeepMeaning(t, ts, ROUNDS, 0);
    NothingToResolve(SubstituteTimes(t, ts, ROUNDS), ts);
  }

  /** A rank that falls along every defined reference bounds the chains, so an acyclic environment
      has bounded chains; one ranked below twenty is always expanded in full. */
  lemma {:induction false} RankBoundsChains(t: Template, ts: Templates, rank: string -> nat, k: nat)
    requires forall i :: 0 <= i < |t| && t[i].Ref? && t[i].name in ts ==> rank(t[i].name) < k
    requires forall n :: n in ts ==>
               forall i :: 0 <= i < |ts[n]| && ts[n][i].Ref? && ts[n][i].name in ts ==> rank(ts[n][i].name) < rank(n)
    ensures ChainsWithin(t, ts, k)
    decreases k
  {
    forall i | 0 <= i < |t| && t[i].Ref? && t[i].name in ts ensures ChainsWithin(ts[t[i].name], ts, k - 1) {
      RankBoundsChains(ts[t[i].name], ts, rank, k - 1);
    }
  }

  // ----- the bound is tight

  function ChainName(i: nat): string {
    seq(i + 1, _ => 'v')
  }

  /** v := "x", vv := "${v}", vvv := "${vv}", ... with `n` names. */
  function Chain(n: nat): Templates {
    if n == 0 then map[]
    else Chain(n - 1)[ChainName(n - 1) := if n == 1 then [Lit("x")] else [Ref(ChainName(n - 2))]]
  }

  lemma {:induction false} ChainEntry(n: nat, i: nat)
    ensures ChainName(i) in Chain(n) <==> i < n
    ensures i < n ==> Chain(n)[ChainName(i)] == if i == 0 then [Lit("x")] else [Ref(ChainName(i - 1))]
    decreases n
  {
    if n > 0 {
      assert |ChainName(i)| == i + 1 && |ChainName(n - 1)| == n;
      ChainEntry(n - 1, i);
    }
  }

  lemma {:induction false} ChainLength(n: nat, i: nat, k: nat)
    requires i < n
    ensures ChainsWithin([Ref(ChainName(i))], Chain(n), k) <==> i < k
    decreases k
  {
    ChainEntry(n, i);
    var t: Template := [Ref(ChainName(i))];
    if k > 0 {
      if i > 0 {
        ChainEntry(n, i - 1);
        ChainLength(n, i - 1, k - 1);
      }
      assert ChainsWithin(t, Chain(n), k) <==> ChainsWithin(Chain(n)[t[0].name], Chain(n), k - 1);
    }
    assert t[0].Ref? && t[0].name in Chain(n);
  }

  /** A chain of twenty links is expanded in full; in a chain of twenty-one a defined reference is left. */
  lemma TwentyIsTight()
    ensures ChainsWithin([Ref(ChainName(19))], Chain(21), ROUNDS)
    ensures exists n :: n in Refs(Expand(Print([Ref(ChainName(20))]), Printed(Chain(21)))) && n in Chain(21)
  {
    hide ChainsWithin;
    hide Chain;
    hide ChainName;
    hide Expand;
    hide Refs;
    hide Print;
    ChainLength(21, 19, ROUNDS);
    ChainLength(21, 20, ROUNDS);
    ChainsOk(21);
    ChainNameOk(20);
    ExpansionIsCompleteIff([Ref(ChainName(20))], Chain(21));
  }

  lemma ChainNameOk(i: nat)
    ensures TemplateOk([Ref(ChainName(i))])
  {
  }

  lemma {:induction false} ChainsOk(n: nat)
    ensures TemplatesOk(Chain(n))
    decreases n
  {
    if n > 0 {
      ChainsOk(n - 1);
    }
  }
}
