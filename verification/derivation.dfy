/**
 * Leftmost derivations in the fixed grammar. A sentential form is a sequence of
 * symbols; one step rewrites its leftmost non-terminal by one of that
 * non-terminal's productions, the empty production contributing nothing. The
 * analyzer's trace records such a derivation, and the generator produces one.
 */
module Derivation {

  import opened Wrappers
  import opened Grammar

  /** One step of a derivation: the non-terminal rewritten and the production used. */
  datatype Application = Application(nonTerminal: Symbol, production: Production)

  function Reverse<T>(s: seq<T>): (r: seq<T>)
    ensures |r| == |s|
    ensures forall i :: 0 <= i < |s| ==> r[i] == s[|s| - 1 - i]
  {
    if s == [] then [] else Reverse(s[1..]) + [s[0]]
  }

  lemma ReverseAppend<T>(a: seq<T>, b: seq<T>)
    ensures Reverse(a + b) == Reverse(b) + Reverse(a)
  {
    assert forall i :: 0 <= i < |a| + |b| ==> Reverse(a + b)[i] == (Reverse(b) + Reverse(a))[i];
  }

  /** What a production contributes to a sentential form: nothing for the empty production. */
  function Body(p: Production): seq<Symbol>
  {
    if |p| > 0 && p[0] == Epsilon then [] else p
  }

  /** A sentential form without non-terminals. */
  predicate IsSentence(w: seq<Symbol>)
  {
    forall i :: 0 <= i < |w| ==> !IsNonTerminal(w[i])
  }

  /** The position of the leftmost non-terminal of `form`, if any. */
  function LeftmostNonTerminal(form: seq<Symbol>): (r: Option<nat>)
    ensures r.None? <==> IsSentence(form)
    ensures r.Some? ==> r.value < |form| && IsNonTerminal(form[r.value]) && IsSentence(form[..r.value])
  {
    if |form| == 0 then None
    else if IsNonTerminal(form[0]) then Some(0)
    else
      match LeftmostNonTerminal(form[1..])
      case None => None
      case Some(i) =>
        assert form[..i + 1] == [form[0]] + form[1..][..i];
        Some(i + 1)
  }

  /** One leftmost step: defined when the leftmost non-terminal is the one the
      application names and the production is one of its own. */
  function Rewrite(form: seq<Symbol>, app: Application): (r: Option<seq<Symbol>>)
  {
    match LeftmostNonTerminal(form)
    case None => None
    case Some(i) =>
      if form[i] == app.nonTerminal && app.production in Productions(app.nonTerminal)
      then Some(form[..i] + Body(app.production) + form[i + 1..])
      else None
  }

  /** The applications carried out one after the other, leftmost each time. */
  function Derive(form: seq<Symbol>, apps: seq<Application>): Option<seq<Symbol>>
    decreases |apps|
  {
    if apps == [] then Some(form)
    else
      match Rewrite(form, apps[0])
      case None => None
      case Some(next) => Derive(next, apps[1..])
  }

  /** `w` is a sentence of the language of `x`. */
  ghost predicate InLanguage(x: Symbol, w: seq<Symbol>)
  {
    IsSentence(w) && exists apps :: Derive([x], apps) == Some(w)
  }

  /** Derivations compose: running `a + b` is running `a`, then `b` on its result. */
  lemma {:induction false} DeriveAppend(form: seq<Symbol>, a: seq<Application>, b: seq<Application>)
    ensures Derive(form, a + b) ==
            if Derive(form, a).Some? then Derive(Derive(form, a).value, b) else None
    decreases |a|
  {
    if a == [] {
      assert a + b == b;
    } else {
      assert (a + b)[0] == a[0] && (a + b)[1..] == a[1..] + b;
      match Rewrite(form, a[0])
      case None =>
      case Some(next) =>
        DeriveAppend(next, a[1..], b);
    }
  }

  lemma LeftmostInContext(u: seq<Symbol>, form: seq<Symbol>, v: seq<Symbol>)
    requires IsSentence(u) && !IsSentence(form)
    ensures LeftmostNonTerminal(u + form + v) == Some(|u| + LeftmostNonTerminal(form).value)
  {
    var i := LeftmostNonTerminal(form).value;
    var whole := u + form + v;
    assert whole[|u| + i] == form[i];
    assert whole[..|u| + i] == u + form[..i];
  }

  /** A step inside a context whose left part is a sentence is the same step. */
  lemma RewriteInContext(u: seq<Symbol>, form: seq<Symbol>, v: seq<Symbol>, app: Application)
    requires IsSentence(u) && Rewrite(form, app).Some?
    ensures Rewrite(u + form + v, app) == Some(u + Rewrite(form, app).value + v)
  {
    var i := LeftmostNonTerminal(form).value;
    LeftmostInContext(u, form, v);
    assert (u + form + v)[|u| + i] == form[i];
    SpliceInContext(u, form, v, i, Body(app.production));
  }

  /** Replacing position `i` of `form` inside `u + form + v`. */
  lemma SpliceInContext(u: seq<Symbol>, form: seq<Symbol>, v: seq<Symbol>, i: nat, body: seq<Symbol>)
    requires i < |form|
    ensures var whole := u + form + v;
            whole[..|u| + i] + body + whole[|u| + i + 1..] == u + (form[..i] + body + form[i + 1..]) + v
  {
    var whole := u + form + v;
    assert whole[..|u| + i] == u + form[..i];
    assert whole[|u| + i + 1..] == form[i + 1..] + v;
  }

  /** A derivation inside a context whose left part is a sentence derives the same. */
  lemma {:induction false} DeriveInContext(u: seq<Symbol>, form: seq<Symbol>, v: seq<Symbol>, apps: seq<Application>)
    requires IsSentence(u) && Derive(form, apps).Some?
    ensures Derive(u + form + v, apps) == Some(u + Derive(form, apps).value + v)
    decreases |apps|
  {
    if apps != [] {
      var next := Rewrite(form, apps[0]).value;
      RewriteInContext(u, form, v, apps[0]);
      DeriveInContext(u, next, v, apps[1..]);
    }
  }

  lemma DeriveLeft(f1: seq<Symbol>, f2: seq<Symbol>, a1: seq<Application>)
    requires Derive(f1, a1).Some?
    ensures Derive(f1 + f2, a1) == Some(Derive(f1, a1).value + f2)
  {
    var none: seq<Symbol> := [];
    var w1 := Derive(f1, a1).value;
    assert none + f1 == f1;
    assert none + w1 == w1;
    DeriveInContext(none, f1, f2, a1);
  }

  lemma DeriveRight(w1: seq<Symbol>, f2: seq<Symbol>, a2: seq<Application>)
    requires IsSentence(w1) && Derive(f2, a2).Some?
    ensures Derive(w1 + f2, a2) == Some(w1 + Derive(f2, a2).value)
  {
    var none: seq<Symbol> := [];
    var w2 := Derive(f2, a2).value;
    assert w1 + f2 + none == w1 + f2;
    assert w1 + w2 + none == w1 + w2;
    DeriveInContext(w1, f2, none, a2);
  }

  /** Deriving a sentence from `f1` and then anything from `f2` derives the concatenation. */
  lemma DeriveConcat(f1: seq<Symbol>, a1: seq<Application>, f2: seq<Symbol>, a2: seq<Application>)
    requires Derive(f1, a1).Some? && IsSentence(Derive(f1, a1).value) && Derive(f2, a2).Some?
    ensures Derive(f1 + f2, a1 + a2) == Some(Derive(f1, a1).value + Derive(f2, a2).value)
  {
    DeriveLeft(f1, f2, a1);
    DeriveRight(Derive(f1, a1).value, f2, a2);
    DeriveAppend(f1 + f2, a1, a2);
  }

  /** Rewriting the leftmost non-terminal `x`, preceded by the sentence `u`. */
  lemma RewriteAt(u: seq<Symbol>, x: Symbol, v: seq<Symbol>, p: Production)
    requires IsSentence(u) && IsNonTerminal(x) && p in Productions(x)
    ensures Rewrite(u + [x] + v, Application(x, p)) == Some(u + Body(p) + v)
  {
    var form := u + [x] + v;
    assert [x][0] == x && !IsSentence([x]);
    LeftmostInContext(u, [x], v);
    assert form[..|u|] == u && form[|u| + 1..] == v && form[|u|] == x;
  }

  /** A derivation that starts by rewriting the leftmost non-terminal `x` continues from its body. */
  lemma DeriveFirst(u: seq<Symbol>, x: Symbol, v: seq<Symbol>, p: Production, rest: seq<Application>)
    requires IsSentence(u) && IsNonTerminal(x) && p in Productions(x)
    ensures Derive(u + [x] + v, [Application(x, p)] + rest) == Derive(u + Body(p) + v, rest)
  {
    var apps := [Application(x, p)] + rest;
    RewriteAt(u, x, v, p);
    assert apps[0] == Application(x, p) && apps[1..] == rest;
  }

  /** Extending a derivation whose leftmost non-terminal is `x` by a production of `x`. */
  lemma DeriveStep(start: seq<Symbol>, apps: seq<Application>, u: seq<Symbol>, x: Symbol, v: seq<Symbol>, p: Production)
    requires Derive(start, apps) == Some(u + [x] + v)
    requires IsSentence(u) && IsNonTerminal(x) && p in Productions(x)
    ensures Derive(start, apps + [Application(x, p)]) == Some(u + Body(p) + v)
  {
    var app := Application(x, p);
    RewriteAt(u, x, v, p);
    assert [app][1..] == [];
    assert Derive(u + [x] + v, [app]) == Some(u + Body(p) + v);
    DeriveAppend(start, apps, [app]);
  }

  lemma RewriteBehindSentence(u: seq<Symbol>, form: seq<Symbol>, app: Application)
    requires IsSentence(u) && Rewrite(u + form, app).Some?
    ensures Rewrite(form, app).Some? && Rewrite(u + form, app) == Some(u + Rewrite(form, app).value)
  {
    var none: seq<Symbol> := [];
    assert u + form + none == u + form;
    LeftmostInContext(u, form, none);
    var i := LeftmostNonTerminal(form).value;
    assert (u + form)[|u| + i] == form[i];
    RewriteInContext(u, form, none, app);
    assert u + Rewrite(form, app).value + none == u + Rewrite(form, app).value;
  }

  /** A derivation never touches a sentence in front of the form it rewrites. */
  lemma {:induction false} DeriveKeepsSentencePrefix(u: seq<Symbol>, form: seq<Symbol>, apps: seq<Application>)
    requires IsSentence(u) && Derive(u + form, apps).Some?
    ensures u <= Derive(u + form, apps).value
    decreases |apps|
  {
    if apps != [] {
      RewriteBehindSentence(u, form, apps[0]);
      DeriveKeepsSentencePrefix(u, Rewrite(form, apps[0]).value, apps[1..]);
    }
  }

}
