/** Python expressions over workflow objects, and when evaluating one builds the
    graph that is written there.

    Arguments are evaluated from left to right, and only then does `chain` or
    `group` copy the graphs they are by that time. `chord` extends its body in
    place, so a variable used both in a chord and elsewhere may be copied with
    more in it than is written at the place where it stands. */
module Sharing {
  import opened Prelude
  import opened JobTable
  import opened Composition
  import opened Workflows

  datatype Expr =
    | Lit(node: Node)
    | Var(x: nat)
    | InChain(steps: seq<Expr>)
    | InGroup(branches: seq<Expr>)
    | WithChord(body: Expr, callback: Node)

  predicate Scoped(e: Expr, n: nat)
    decreases e
  {
    match e
    case Lit(_) => true
    case Var(x) => x < n
    case InChain(steps) => forall i :: 0 <= i < |steps| ==> Scoped(steps[i], n)
    case InGroup(branches) => forall i :: 0 <= i < |branches| ==> Scoped(branches[i], n)
    case WithChord(body, _) => Scoped(body, n)
  }

  predicate AllScoped(es: seq<Expr>, n: nat) {
    forall i :: 0 <= i < |es| ==> Scoped(es[i], n)
  }

  // ---- what is written -----------------------------------------------------

  function Mean(e: Expr, env: seq<Flow>): Flow
    requires Scoped(e, |env|)
    decreases e, 1
  {
    match e
    case Lit(node) => Single(node)
    case Var(x) => env[x]
    case InChain(steps) => ChainOf(MeanAll(steps, env))
    case InGroup(branches) => GroupOf(MeanAll(branches, env))
    case WithChord(body, callback) => ChordOf(Mean(body, env), callback)
  }

  function MeanAll(es: seq<Expr>, env: seq<Flow>): (flows: seq<Flow>)
    requires AllScoped(es, |env|)
    ensures |flows| == |es|
    decreases es, 0
  {
    if es == [] then [] else MeanAll(es[..|es| - 1], env) + [Mean(es[|es| - 1], env)]
  }

  // ---- what is evaluated ---------------------------------------------------

  /** A signature, or an object by its place among all there are. */
  datatype Ref = Sig(node: Node) | Obj(o: nat)

  predicate Known(r: Ref, heap: seq<Flow>) {
    r.Obj? ==> r.o < |heap|
  }

  function ValueOf(r: Ref, heap: seq<Flow>): Flow
    requires Known(r, heap)
  {
    if r.Sig? then Single(r.node) else heap[r.o]
  }

  predicate AllKnown(rs: seq<Ref>, heap: seq<Flow>) {
    forall i :: 0 <= i < |rs| ==> Known(rs[i], heap)
  }

  function ValuesOf(rs: seq<Ref>, heap: seq<Flow>): seq<Flow>
    requires AllKnown(rs, heap)
  {
    seq(|rs|, i requires 0 <= i < |rs| => ValueOf(rs[i], heap))
  }

  datatype Outcome = Outcome(ref: Ref, heap: seq<Flow>)

  datatype Outcomes = Outcomes(refs: seq<Ref>, heap: seq<Flow>)

  function Eval(e: Expr, heap: seq<Flow>): (out: Outcome)
    requires Scoped(e, |heap|)
    ensures |heap| <= |out.heap| && Known(out.ref, out.heap)
    decreases e, 1
  {
    match e
    case Lit(node) => Outcome(Sig(node), heap)
    case Var(x) => Outcome(Obj(x), heap)
    case InChain(steps) =>
      var args := EvalAll(steps, heap);
      Outcome(Obj(|args.heap|), args.heap + [ChainOf(ValuesOf(args.refs, args.heap))])
    case InGroup(branches) =>
      var args := EvalAll(branches, heap);
      Outcome(Obj(|args.heap|), args.heap + [GroupOf(ValuesOf(args.refs, args.heap))])
    case WithChord(body, callback) => Extend(Eval(body, heap), callback)
  }

  function EvalAll(es: seq<Expr>, heap: seq<Flow>): (out: Outcomes)
    requires AllScoped(es, |heap|)
    ensures |out.refs| == |es| && |heap| <= |out.heap| && AllKnown(out.refs, out.heap)
    decreases es, 0
  {
    if es == [] then Outcomes([], heap) else
    var before := EvalAll(es[..|es| - 1], heap);
    ScopedMore(es[|es| - 1], |heap|, |before.heap|);
    var last := Eval(es[|es| - 1], before.heap);
    Outcomes(before.refs + [last.ref], last.heap)
  }

  /** The body's own object with the callback added, or a new one. */
  function Extend(body: Outcome, callback: Node): (out: Outcome)
    requires Known(body.ref, body.heap)
    ensures |body.heap| <= |out.heap| && Known(out.ref, out.heap)
  {
    var extended := ChordOf(ValueOf(body.ref, body.heap), callback);
    match body.ref
    case Sig(_) => Outcome(Obj(|body.heap|), body.heap + [extended])
    case Obj(o) => Outcome(body.ref, body.heap[o := extended])
  }

  lemma {:induction false} ScopedMore(e: Expr, n: nat, m: nat)
    requires Scoped(e, n) && n <= m
    ensures Scoped(e, m)
    decreases e
  {
    match e
    case InChain(steps) =>
      forall i | 0 <= i < |steps| ensures Scoped(steps[i], m) {
        ScopedMore(steps[i], n, m);
      }
    case InGroup(branches) =>
      forall i | 0 <= i < |branches| ensures Scoped(branches[i], m) {
        ScopedMore(branches[i], n, m);
      }
    case WithChord(body, _) => ScopedMore(body, n, m);
    case _ =>
  }

  // ---- when the two agree --------------------------------------------------

  /** The variable whose own object the expression evaluates to. */
  function Target(e: Expr): Option<nat> {
    match e
    case Var(x) => Some(x)
    case WithChord(body, _) => Target(body)
    case _ => None
  }

  /** How often it is extended on the way. */
  function Depth(e: Expr): nat {
    match e
    case WithChord(body, _) => Depth(body) + 1
    case _ => 0
  }

  lemma {:induction false} TargetInScope(e: Expr, n: nat)
    requires Scoped(e, n) && Target(e).Some?
    ensures Target(e).value < n
  {
    if e.WithChord? {
      TargetInScope(e.body, n);
    }
  }

  /** How often each variable has been extended after the expression, if before
      it it was that often. */
  function Counted(e: Expr, cnt: seq<nat>): (after: seq<nat>)
    requires Scoped(e, |cnt|)
    ensures |after| == |cnt|
    decreases e, 1
  {
    match e
    case InChain(steps) => CountedAll(steps, cnt)
    case InGroup(branches) => CountedAll(branches, cnt)
    case WithChord(body, _) =>
      var before := Counted(body, cnt);
      if Target(body).Some? then
        TargetInScope(body, |cnt|);
        before[Target(body).value := before[Target(body).value] + 1]
      else before
    case _ => cnt
  }

  function CountedAll(es: seq<Expr>, cnt: seq<nat>): (after: seq<nat>)
    requires AllScoped(es, |cnt|)
    ensures |after| == |cnt|
    decreases es, 0
  {
    if es == [] then cnt else Counted(es[|es| - 1], CountedAll(es[..|es| - 1], cnt))
  }

  /** Where the expression's value is copied, its variable has been extended by
      nobody but itself. */
  predicate Fresh(e: Expr, cnt: seq<nat>) {
    Target(e).Some? && Target(e).value < |cnt| ==> cnt[Target(e).value] == Depth(e)
  }

  /** Nothing is copied with more in it than is written: every argument of a chain
      or group is fresh once all of them have been evaluated. */
  predicate Clean(e: Expr, cnt: seq<nat>)
    requires Scoped(e, |cnt|)
    decreases e, 1
  {
    match e
    case InChain(steps) =>
      CleanAll(steps, cnt) && forall i :: 0 <= i < |steps| ==> Fresh(steps[i], CountedAll(steps, cnt))
    case InGroup(branches) =>
      CleanAll(branches, cnt) && forall i :: 0 <= i < |branches| ==> Fresh(branches[i], CountedAll(branches, cnt))
    case WithChord(body, _) => Clean(body, cnt)
    case _ => true
  }

  predicate CleanAll(es: seq<Expr>, cnt: seq<nat>)
    requires AllScoped(es, |cnt|)
    decreases es, 0
  {
    es == [] ||
    (CleanAll(es[..|es| - 1], cnt) && Clean(es[|es| - 1], CountedAll(es[..|es| - 1], cnt)))
  }

  // ---- sizes ---------------------------------------------------------------

  function Total(flows: seq<Flow>): nat {
    if flows == [] then 0 else Total(flows[..|flows| - 1]) + |flows[|flows| - 1].nodes|
  }

  lemma {:induction false} ChainSize(flows: seq<Flow>)
    ensures |ChainOf(flows).nodes| == Total(flows)
  {
    if flows != [] {
      ChainSize(flows[..|flows| - 1]);
    }
  }

  lemma {:induction false} GroupSize(flows: seq<Flow>)
    ensures |GroupOf(flows).nodes| == Total(flows)
  {
    if flows != [] {
      GroupSize(flows[..|flows| - 1]);
    }
  }

  /** At least as large as what was meant, and larger unless it is just that. */
  predicate Covers(value: Flow, meant: Flow) {
    |meant.nodes| < |value.nodes| || value == meant
  }

  lemma {:induction false} TotalCovers(values: seq<Flow>, meant: seq<Flow>)
    requires |values| == |meant| && forall i :: 0 <= i < |values| ==> Covers(values[i], meant[i])
    ensures Total(meant) <= Total(values)
    ensures values != meant ==> Total(meant) < Total(values)
    decreases |values|
  {
    if values != [] {
      var n := |values| - 1;
      TotalCovers(values[..n], meant[..n]);
      assert values[..n] == meant[..n] && values[n] == meant[n] ==> values == meant by {
        assert values == values[..n] + [values[n]] && meant == meant[..n] + [meant[n]];
      }
    }
  }

  lemma CombinedCover(values: seq<Flow>, meant: seq<Flow>)
    requires |values| == |meant| && forall i :: 0 <= i < |values| ==> Covers(values[i], meant[i])
    ensures Covers(ChainOf(values), ChainOf(meant)) && Covers(GroupOf(values), GroupOf(meant))
    ensures ChainOf(values) == ChainOf(meant) <==> values == meant
    ensures GroupOf(values) == GroupOf(meant) <==> values == meant
  {
    TotalCovers(values, meant);
    ChainSize(values);
    ChainSize(meant);
    GroupSize(values);
    GroupSize(meant);
  }

  // ---- the evaluation, followed --------------------------------------------

  /** Each variable's object has grown by the extensions counted. */
  predicate Tracks(env: seq<Flow>, heap: seq<Flow>, cnt: seq<nat>) {
    && |cnt| == |env| <= |heap|
    && forall x :: 0 <= x < |env| ==>
         |heap[x].nodes| == |env[x].nodes| + cnt[x] && (cnt[x] == 0 ==> heap[x] == env[x])
  }

  /** From one moment to a later one, a variable's object changes only by being
      extended, and no other object changes. */
  predicate Keeps(heap: seq<Flow>, cnt: seq<nat>, later: seq<Flow>, more: seq<nat>) {
    && |cnt| == |more| <= |heap| <= |later|
    && (forall x :: 0 <= x < |cnt| ==> cnt[x] <= more[x] && (more[x] == cnt[x] ==> later[x] == heap[x]))
    && (forall o :: |cnt| <= o < |heap| ==> later[o] == heap[o])
  }

  /** What an expression's value is to what it means. Objects from `start` on are
      its own. */
  predicate Stands(e: Expr, env: seq<Flow>, ref: Ref, heap: seq<Flow>, cnt: seq<nat>, start: nat, clean: bool)
    requires Scoped(e, |env|) && Known(ref, heap)
  {
    var meant, value := Mean(e, env), ValueOf(ref, heap);
    match Target(e)
    case Some(x) =>
      && x < |env| && |cnt| == |env| && ref == Obj(x)
      && |meant.nodes| == |env[x].nodes| + Depth(e)
      && Depth(e) <= cnt[x] && |value.nodes| == |env[x].nodes| + cnt[x]
      && (cnt[x] == Depth(e) ==> value == meant)
    case None => (ref.Obj? ==> start <= ref.o) && Covers(value, meant) && (value == meant <==> clean)
  }

  lemma StandsLater(e: Expr, env: seq<Flow>, ref: Ref, heap: seq<Flow>, cnt: seq<nat>, start: nat, clean: bool,
                    later: seq<Flow>, more: seq<nat>)
    requires Scoped(e, |env|) && Known(ref, heap) && |env| <= start
    requires Stands(e, env, ref, heap, cnt, start, clean)
    requires Keeps(heap, cnt, later, more) && Tracks(env, later, more)
    ensures Known(ref, later) && Stands(e, env, ref, later, more, start, clean)
  {}

  lemma KeepsOn(heap: seq<Flow>, cnt: seq<nat>, mid: seq<Flow>, some: seq<nat>, later: seq<Flow>, more: seq<nat>)
    requires Keeps(heap, cnt, mid, some) && Keeps(mid, some, later, more)
    ensures Keeps(heap, cnt, later, more)
  {}

  predicate CleanAt(es: seq<Expr>, cnt: seq<nat>, i: nat)
    requires i < |es| && AllScoped(es, |cnt|)
  {
    Clean(es[i], CountedAll(es[..i], cnt))
  }

  lemma {:induction false} CleanEach(es: seq<Expr>, cnt: seq<nat>)
    requires AllScoped(es, |cnt|)
    ensures CleanAll(es, cnt) <==> forall i :: 0 <= i < |es| ==> CleanAt(es, cnt, i)
    decreases |es|
  {
    if es != [] {
      var n := |es| - 1;
      CleanEach(es[..n], cnt);
      forall i | 0 <= i < n ensures CleanAt(es[..n], cnt, i) <==> CleanAt(es, cnt, i) {
        assert es[..n][..i] == es[..i];
      }
      assert CleanAll(es, cnt) <==> CleanAll(es[..n], cnt) && CleanAt(es, cnt, n);
    }
  }

  lemma {:induction false} TargetIsClean(e: Expr, cnt: seq<nat>)
    requires Scoped(e, |cnt|) && Target(e).Some?
    ensures Clean(e, cnt)
  {
    if e.WithChord? {
      TargetIsClean(e.body, cnt);
    }
  }

  lemma {:induction false} MeanAt(es: seq<Expr>, env: seq<Flow>, i: nat)
    requires AllScoped(es, |env|) && i < |es|
    ensures MeanAll(es, env)[i] == Mean(es[i], env)
    decreases |es|
  {
    if i < |es| - 1 {
      MeanAt(es[..|es| - 1], env, i);
    }
  }

  predicate Followed(e: Expr, env: seq<Flow>, heap: seq<Flow>, cnt: seq<nat>)
    requires Scoped(e, |env|) && Scoped(e, |heap|) && |cnt| == |env|
  {
    var out, more := Eval(e, heap), Counted(e, cnt);
    && Tracks(env, out.heap, more)
    && Keeps(heap, cnt, out.heap, more)
    && Stands(e, env, out.ref, out.heap, more, |heap|, Clean(e, cnt))
  }

  predicate FollowedAt(es: seq<Expr>, env: seq<Flow>, heap: seq<Flow>, cnt: seq<nat>, i: nat)
    requires AllScoped(es, |env|) && AllScoped(es, |heap|) && |cnt| == |env| && i < |es|
  {
    var out := EvalAll(es, heap);
    Stands(es[i], env, out.refs[i], out.heap, CountedAll(es, cnt), |heap|, CleanAt(es, cnt, i))
  }

  predicate FollowedAll(es: seq<Expr>, env: seq<Flow>, heap: seq<Flow>, cnt: seq<nat>)
    requires AllScoped(es, |env|) && AllScoped(es, |heap|) && |cnt| == |env|
  {
    var out, more := EvalAll(es, heap), CountedAll(es, cnt);
    && Tracks(env, out.heap, more)
    && Keeps(heap, cnt, out.heap, more)
    && forall i :: 0 <= i < |es| ==> FollowedAt(es, env, heap, cnt, i)
  }

  /** An evaluation may add objects, change those it added, and extend a
      variable's. */
  lemma AddObject(env: seq<Flow>, heap: seq<Flow>, cnt: seq<nat>, later: seq<Flow>, more: seq<nat>, made: Flow)
    requires Tracks(env, later, more) && Keeps(heap, cnt, later, more)
    ensures Tracks(env, later + [made], more) && Keeps(heap, cnt, later + [made], more)
  {}

  lemma ChangeOwn(env: seq<Flow>, heap: seq<Flow>, cnt: seq<nat>, later: seq<Flow>, more: seq<nat>, o: nat, made: Flow)
    requires Tracks(env, later, more) && Keeps(heap, cnt, later, more) && |heap| <= o < |later|
    ensures Tracks(env, later[o := made], more) && Keeps(heap, cnt, later[o := made], more)
  {}

  lemma ExtendVariable(env: seq<Flow>, heap: seq<Flow>, cnt: seq<nat>, later: seq<Flow>, more: seq<nat>, x: nat,
                       made: Flow)
    requires Tracks(env, later, more) && Keeps(heap, cnt, later, more)
    requires x < |env| && |made.nodes| == |later[x].nodes| + 1
    ensures Tracks(env, later[x := made], more[x := more[x] + 1])
    ensures Keeps(heap, cnt, later[x := made], more[x := more[x] + 1])
  {}

  lemma FollowOwnExtension(body: Expr, callback: Node, env: seq<Flow>, heap: seq<Flow>, cnt: seq<nat>)
    requires Scoped(body, |env|) && Scoped(body, |heap|) && Tracks(env, heap, cnt) && Followed(body, env, heap, cnt)
    requires Target(body).None?
    ensures Followed(WithChord(body, callback), env, heap, cnt)
  {
    var b, more := Eval(body, heap), Counted(body, cnt);
    var value := ValueOf(b.ref, b.heap);
    var made := ChordOf(value, callback);
    ChordCovers(value, Mean(body, env), callback);
    if b.ref.Sig? {
      AddObject(env, heap, cnt, b.heap, more, made);
    } else {
      ChangeOwn(env, heap, cnt, b.heap, more, b.ref.o, made);
    }
  }

  lemma FollowVariable(body: Expr, callback: Node, env: seq<Flow>, heap: seq<Flow>, cnt: seq<nat>)
    requires Scoped(body, |env|) && Scoped(body, |heap|) && Tracks(env, heap, cnt) && Followed(body, env, heap, cnt)
    requires Target(body).Some?
    ensures Followed(WithChord(body, callback), env, heap, cnt)
  {
    var b, more, x := Eval(body, heap), Counted(body, cnt), Target(body).value;
    ChordCovers(b.heap[x], Mean(body, env), callback);
    ExtendVariable(env, heap, cnt, b.heap, more, x, ChordOf(b.heap[x], callback));
  }

  lemma ChordCovers(value: Flow, meant: Flow, callback: Node)
    ensures |ChordOf(meant, callback).nodes| == |meant.nodes| + 1
    ensures Covers(value, meant) ==> Covers(ChordOf(value, callback), ChordOf(meant, callback))
    ensures Covers(value, meant) ==> (ChordOf(value, callback) == ChordOf(meant, callback) <==> value == meant)
  {}

  /** Copied once they have all been evaluated, arguments are what they mean
      exactly when each was clean and is fresh. */
  lemma Copied(es: seq<Expr>, env: seq<Flow>, heap: seq<Flow>, cnt: seq<nat>)
    requires AllScoped(es, |env|) && AllScoped(es, |heap|) && |cnt| == |env| && FollowedAll(es, env, heap, cnt)
    ensures var out := EvalAll(es, heap);
            var values, meant := ValuesOf(out.refs, out.heap), MeanAll(es, env);
            && (forall i :: 0 <= i < |es| ==> Covers(values[i], meant[i]))
            && (values == meant <==>
                  CleanAll(es, cnt) && forall i :: 0 <= i < |es| ==> Fresh(es[i], CountedAll(es, cnt)))
  {
    var out := EvalAll(es, heap);
    var values, meant := ValuesOf(out.refs, out.heap), MeanAll(es, env);
    forall i | 0 <= i < |es|
      ensures Covers(values[i], meant[i])
      ensures values[i] == meant[i] <==> CleanAt(es, cnt, i) && Fresh(es[i], CountedAll(es, cnt))
    {
      MeanAt(es, env, i);
      assert FollowedAt(es, env, heap, cnt, i);
      if Target(es[i]).Some? {
        TargetIsClean(es[i], CountedAll(es[..i], cnt));
      }
    }
    CleanEach(es, cnt);
  }

  lemma {:induction false} EvalFollowed(e: Expr, env: seq<Flow>, heap: seq<Flow>, cnt: seq<nat>)
    requires Scoped(e, |env|) && Scoped(e, |heap|) && Tracks(env, heap, cnt)
    ensures Followed(e, env, heap, cnt)
    decreases e, 1
  {
    match e
    case InChain(steps) =>
      AllFollowed(steps, env, heap, cnt);
      NewObject(e, steps, env, heap, cnt);
    case InGroup(branches) =>
      AllFollowed(branches, env, heap, cnt);
      NewObject(e, branches, env, heap, cnt);
    case WithChord(body, callback) =>
      EvalFollowed(body, env, heap, cnt);
      if Target(body).Some? {
        FollowVariable(body, callback, env, heap, cnt);
      } else {
        FollowOwnExtension(body, callback, env, heap, cnt);
      }
    case _ =>
  }

  lemma NewObject(e: Expr, es: seq<Expr>, env: seq<Flow>, heap: seq<Flow>, cnt: seq<nat>)
    requires e == InChain(es) || e == InGroup(es)
    requires Scoped(e, |env|) && Scoped(e, |heap|) && Tracks(env, heap, cnt)
    requires AllScoped(es, |env|) && AllScoped(es, |heap|) && FollowedAll(es, env, heap, cnt)
    ensures Followed(e, env, heap, cnt)
  {
    var args, more := EvalAll(es, heap), CountedAll(es, cnt);
    var values, meant := ValuesOf(args.refs, args.heap), MeanAll(es, env);
    Copied(es, env, heap, cnt);
    CombinedCover(values, meant);
    AddObject(env, heap, cnt, args.heap, more, if e.InChain? then ChainOf(values) else GroupOf(values));
  }

  lemma {:induction false} AllFollowed(es: seq<Expr>, env: seq<Flow>, heap: seq<Flow>, cnt: seq<nat>)
    requires AllScoped(es, |env|) && AllScoped(es, |heap|) && Tracks(env, heap, cnt)
    ensures FollowedAll(es, env, heap, cnt)
    decreases es, 0
  {
    if es != [] {
      var n := |es| - 1;
      AllFollowed(es[..n], env, heap, cnt);
      var before, some := EvalAll(es[..n], heap), CountedAll(es[..n], cnt);
      ScopedMore(es[n], |heap|, |before.heap|);
      EvalFollowed(es[n], env, before.heap, some);
      OneMoreFollowed(es, env, heap, cnt);
    }
  }

  lemma OneMoreFollowed(es: seq<Expr>, env: seq<Flow>, heap: seq<Flow>, cnt: seq<nat>)
    requires es != [] && AllScoped(es, |env|) && AllScoped(es, |heap|) && Tracks(env, heap, cnt)
    requires FollowedAll(es[..|es| - 1], env, heap, cnt)
    requires Scoped(es[|es| - 1], |EvalAll(es[..|es| - 1], heap).heap|)
    requires Followed(es[|es| - 1], env, EvalAll(es[..|es| - 1], heap).heap, CountedAll(es[..|es| - 1], cnt))
    ensures FollowedAll(es, env, heap, cnt)
  {
    var n := |es| - 1;
    var before, some := EvalAll(es[..n], heap), CountedAll(es[..n], cnt);
    var out, more := EvalAll(es, heap), CountedAll(es, cnt);
    KeepsOn(heap, cnt, before.heap, some, out.heap, more);
    forall i | 0 <= i < |es| ensures FollowedAt(es, env, heap, cnt, i) {
      if i < n {
        assert FollowedAt(es[..n], env, heap, cnt, i);
        assert es[..n][..i] == es[..i];
        StandsLater(es[i], env, before.refs[i], before.heap, some, |heap|, CleanAt(es, cnt, i), out.heap, more);
      }
    }
  }

  function Zeros(n: nat): seq<nat> {
    seq(n, _ => 0)
  }

  /** An expression evaluates to the graph that is written exactly when it is
      clean, whatever graphs its variables were. */
  lemma BuildsAsWrittenExactlyWhen(e: Expr, env: seq<Flow>)
    requires Scoped(e, |env|)
    ensures var out := Eval(e, env); ValueOf(out.ref, out.heap) == Mean(e, env) <==> Clean(e, Zeros(|env|))
  {
    var cnt := Zeros(|env|);
    EvalFollowed(e, env, env, cnt);
    if Target(e).Some? {
      TargetIsClean(e, cnt);
      OwnExtensions(e, cnt, Target(e).value);
    }
  }

  lemma {:induction false} OwnExtensions(e: Expr, cnt: seq<nat>, x: nat)
    requires Scoped(e, |cnt|) && Target(e) == Some(x) && x < |cnt|
    ensures Counted(e, cnt)[x] == cnt[x] + Depth(e)
  {
    if e.WithChord? {
      OwnExtensions(e.body, cnt, x);
    }
  }

  /** A chain of a graph and then a chord on that very graph is not the one
      written, whatever the graph and the callback: the callback is in it twice. */
  lemma SharedBodyIsCopiedTwice(w: Flow, callback: Node)
    ensures var e := InChain([Var(0), WithChord(Var(0), callback)]);
            var out := Eval(e, [w]);
            && ValueOf(out.ref, out.heap) == ChainOf([ChordOf(w, callback), ChordOf(w, callback)])
            && ValueOf(out.ref, out.heap) != Mean(e, [w])
  {
    var es := [Var(0), WithChord(Var(0), callback)];
    SharedArguments(es, w, callback);
    NotFresh(es, callback);
    BuildsAsWrittenExactlyWhen(InChain(es), [w]);
  }

  lemma SharedArguments(es: seq<Expr>, w: Flow, callback: Node)
    requires es == [Var(0), WithChord(Var(0), callback)]
    ensures var args := EvalAll(es, [w]);
            ValuesOf(args.refs, args.heap) == [ChordOf(w, callback), ChordOf(w, callback)]
  {
    var one := es[..1];
    assert EvalAll(one[..0], [w]) == Outcomes([], [w]);
    assert Eval(one[0], [w]) == Outcome(Obj(0), [w]);
    assert EvalAll(one, [w]) == Outcomes([] + [Obj(0)], [w]);
    var last := Eval(es[1], [w]);
    assert last == Extend(Outcome(Obj(0), [w]), callback);
    assert last.heap == [ChordOf(w, callback)];
  }

  lemma NotFresh(es: seq<Expr>, callback: Node)
    requires es == [Var(0), WithChord(Var(0), callback)]
    ensures AllScoped(es, 1) && !Clean(InChain(es), Zeros(1))
  {
    var one, before := es[..1], Zeros(1);
    assert CountedAll(one[..0], before) == before;
    assert Counted(one[0], before) == before;
    assert CountedAll(one, before) == before;
    assert CountedAll(es, Zeros(1)) == before[0 := 1];
    assert !Fresh(es[0], before[0 := 1]);
  }

  // ---- on the objects ------------------------------------------------------

  ghost function Footprint(objects: seq<Workflow>): set<object> {
    set o | o in objects
  }

  ghost predicate Heap(objects: seq<Workflow>)
    reads objects
  {
    && (forall i, j :: 0 <= i < j < |objects| ==> objects[i] != objects[j])
    && (forall i :: 0 <= i < |objects| ==> objects[i].Valid())
  }

  ghost function Graphs(objects: seq<Workflow>): (flows: seq<Flow>)
    reads objects
    ensures |flows| == |objects|
  {
    seq(|objects|, i requires 0 <= i < |objects| reads objects => objects[i].Value())
  }

  predicate Names(item: Item, ref: Ref, objects: seq<Workflow>) {
    match ref
    case Sig(node) => item == One(node)
    case Obj(o) => o < |objects| && item == Sub(objects[o])
  }

  /** The body's own object is extended, or a new one is made of a signature. */
  method EvaluateChord(body: Item, callback: Node, objects: seq<Workflow>, ghost ref: Ref)
      returns (item: Item, more: seq<Workflow>)
    requires Heap(objects) && Names(body, ref, objects)
    modifies Footprint(objects)
    ensures Heap(more) && objects <= more && fresh(Footprint(more) - Footprint(objects))
    ensures var out := Extend(Outcome(ref, old(Graphs(objects))), callback);
            Graphs(more) == out.heap && Names(item, out.ref, more)
  {
    var flow := Chorded(body, callback);
    item := Sub(flow);
    if body.Sub? {
      more := objects;
    } else {
      more := objects + [flow];
    }
  }

  method AddMade(flow: Workflow, objects: seq<Workflow>) returns (item: Item, more: seq<Workflow>)
    requires Heap(objects) && flow.Valid() && flow !in objects
    ensures item == Sub(flow) && more == objects + [flow]
    ensures Heap(more) && Graphs(more) == Graphs(objects) + [flow.Value()]
  {
    item, more := Sub(flow), objects + [flow];
  }

  ghost predicate AllNamed(items: seq<Item>, refs: seq<Ref>, objects: seq<Workflow>) {
    |items| == |refs| && forall i :: 0 <= i < |items| ==> Names(items[i], refs[i], objects)
  }

  lemma NamedValues(items: seq<Item>, refs: seq<Ref>, objects: seq<Workflow>)
    requires Heap(objects) && AllNamed(items, refs, objects)
    ensures AllValid(items) && AllKnown(refs, Graphs(objects)) && Values(items) == ValuesOf(refs, Graphs(objects))
    ensures Objects(items) <= Footprint(objects)
  {
    forall i | 0 <= i < |items| ensures items[i].Valid() && Known(refs[i], Graphs(objects)) {
      assert Names(items[i], refs[i], objects);
    }
    forall i | 0 <= i < |items| ensures Values(items)[i] == ValuesOf(refs, Graphs(objects))[i] {
      assert Names(items[i], refs[i], objects);
    }
    forall o | o in Objects(items) ensures o in Footprint(objects) {
      var i :| 0 <= i < |items| && o in items[i].Footprint();
      assert Names(items[i], refs[i], objects);
    }
  }

  method MakeCombined(items: seq<Item>, chained: bool, objects: seq<Workflow>, ghost refs: seq<Ref>)
      returns (item: Item, more: seq<Workflow>)
    requires Heap(objects) && AllNamed(items, refs, objects) && AllKnown(refs, Graphs(objects))
    ensures Heap(more) && objects <= more && fresh(Footprint(more) - Footprint(objects))
    ensures Names(item, Obj(|objects|), more)
    ensures var values := ValuesOf(refs, old(Graphs(objects)));
            Graphs(more) == old(Graphs(objects)) + [if chained then ChainOf(values) else GroupOf(values)]
  {
    NamedValues(items, refs, objects);
    var flow;
    if chained {
      flow := Chained(items);
    } else {
      flow := Grouped(items);
    }
    item, more := AddMade(flow, objects);
  }

  /** What Python does with the expression: the arguments first and from left to
      right, on the objects themselves. */
  method Evaluate(e: Expr, objects: seq<Workflow>) returns (item: Item, more: seq<Workflow>)
    requires Scoped(e, |objects|) && Heap(objects)
    modifies Footprint(objects)
    ensures Heap(more) && objects <= more && fresh(Footprint(more) - Footprint(objects))
    ensures var out := Eval(e, old(Graphs(objects))); Graphs(more) == out.heap && Names(item, out.ref, more)
    decreases e, 1
  {
    match e
    case Lit(node) => item, more := One(node), objects;
    case Var(x) => item, more := Sub(objects[x]), objects;
    case InChain(steps) => item, more := EvaluateCombined(steps, true, objects);
    case InGroup(branches) => item, more := EvaluateCombined(branches, false, objects);
    case WithChord(body, callback) =>
      item, more := Evaluate(body, objects);
      item, more := EvaluateChord(item, callback, more, Eval(body, old(Graphs(objects))).ref);
  }

  lemma EvalSnoc(es: seq<Expr>, k: nat, heap: seq<Flow>)
    requires k < |es| && AllScoped(es, |heap|)
    ensures var before := EvalAll(es[..k], heap);
            && Scoped(es[k], |before.heap|)
            && var last := Eval(es[k], before.heap);
            EvalAll(es[..k + 1], heap) == Outcomes(before.refs + [last.ref], last.heap)
  {
    assert es[..k + 1][..k] == es[..k];
    ScopedMore(es[k], |heap|, |EvalAll(es[..k], heap).heap|);
  }

  lemma OneMoreNamed(items: seq<Item>, refs: seq<Ref>, objects: seq<Workflow>, item: Item, ref: Ref,
                     more: seq<Workflow>)
    requires AllNamed(items, refs, objects) && objects <= more && Names(item, ref, more)
    ensures AllNamed(items + [item], refs + [ref], more)
  {}

  method EvaluateCombined(es: seq<Expr>, chained: bool, objects: seq<Workflow>)
      returns (item: Item, more: seq<Workflow>)
    requires AllScoped(es, |objects|) && Heap(objects)
    modifies Footprint(objects)
    ensures Heap(more) && objects <= more && fresh(Footprint(more) - Footprint(objects))
    ensures var out := Eval(if chained then InChain(es) else InGroup(es), old(Graphs(objects)));
            Graphs(more) == out.heap && Names(item, out.ref, more)
    decreases es, 1
  {
    var items, args := EvaluateAll(es, objects);
    item, more := MakeCombined(items, chained, args, EvalAll(es, old(Graphs(objects))).refs);
  }

  method EvaluateAll(es: seq<Expr>, objects: seq<Workflow>) returns (items: seq<Item>, more: seq<Workflow>)
    requires AllScoped(es, |objects|) && Heap(objects)
    modifies Footprint(objects)
    ensures Heap(more) && objects <= more && fresh(Footprint(more) - Footprint(objects))
    ensures var out := EvalAll(es, old(Graphs(objects))); Graphs(more) == out.heap && AllNamed(items, out.refs, more)
    decreases es, 0
  {
    items, more := [], objects;
    ghost var heap := Graphs(objects);
    for k := 0 to |es|
      invariant Heap(more) && objects <= more && fresh(Footprint(more) - Footprint(objects))
      invariant Graphs(more) == EvalAll(es[..k], heap).heap && AllNamed(items, EvalAll(es[..k], heap).refs, more)
    {
      ScopedMore(es[k], |objects|, |more|);
      EvalSnoc(es, k, heap);
      var item, all := Evaluate(es[k], more);
      OneMoreNamed(items, EvalAll(es[..k], heap).refs, more, item, Eval(es[k], EvalAll(es[..k], heap).heap).ref, all);
      items, more := items + [item], all;
    }
    assert es[..|es|] == es;
  }

  // ---- without variables ---------------------------------------------------

  /** A composition written out in one expression. */
  function Written(c: Comp): Expr
    decreases c, 1
  {
    match c
    case Task(node) => Lit(node)
    case Chain(steps) => InChain(WrittenAll(steps))
    case Group(branches) => InGroup(WrittenAll(branches))
    case Chord(body, callback) => WithChord(Written(body), callback)
  }

  function WrittenAll(cs: seq<Comp>): (es: seq<Expr>)
    ensures |es| == |cs|
    decreases cs, 0
  {
    if cs == [] then [] else WrittenAll(cs[..|cs| - 1]) + [Written(cs[|cs| - 1])]
  }

  lemma {:induction false} WrittenAt(cs: seq<Comp>, i: nat)
    requires i < |cs|
    ensures WrittenAll(cs)[i] == Written(cs[i])
    decreases |cs|
  {
    if i < |cs| - 1 {
      WrittenAt(cs[..|cs| - 1], i);
    }
  }

  lemma {:induction false} WrittenIsClosed(c: Comp)
    ensures Scoped(Written(c), 0) && Target(Written(c)).None?
    decreases c, 1
  {
    match c
    case Chain(steps) => AllWrittenClosed(steps);
    case Group(branches) => AllWrittenClosed(branches);
    case Chord(body, _) => WrittenIsClosed(body);
    case Task(_) =>
  }

  lemma {:induction false} AllWrittenClosed(cs: seq<Comp>)
    ensures AllScoped(WrittenAll(cs), 0)
    ensures forall i :: 0 <= i < |cs| ==> Target(WrittenAll(cs)[i]).None?
    decreases cs, 0
  {
    forall i | 0 <= i < |cs| ensures Scoped(WrittenAll(cs)[i], 0) && Target(WrittenAll(cs)[i]).None? {
      WrittenAt(cs, i);
      WrittenIsClosed(cs[i]);
    }
  }

  lemma {:induction false} WrittenIsClean(c: Comp)
    requires Scoped(Written(c), 0)
    ensures Clean(Written(c), [])
    decreases c, 1
  {
    match c
    case Chain(steps) => AllWrittenClean(steps);
    case Group(branches) => AllWrittenClean(branches);
    case Chord(body, _) => WrittenIsClean(body);
    case Task(_) =>
  }

  lemma {:induction false} AllWrittenClean(cs: seq<Comp>)
    requires AllScoped(WrittenAll(cs), 0)
    ensures CleanAll(WrittenAll(cs), [])
    ensures forall i :: 0 <= i < |cs| ==> Fresh(WrittenAll(cs)[i], CountedAll(WrittenAll(cs), []))
    decreases cs, 0
  {
    AllWrittenClosed(cs);
    if cs != [] {
      var n := |cs| - 1;
      assert WrittenAll(cs)[..n] == WrittenAll(cs[..n]);
      AllWrittenClosed(cs[..n]);
      AllWrittenClean(cs[..n]);
      WrittenIsClosed(cs[n]);
      WrittenIsClean(cs[n]);
      assert CountedAll(WrittenAll(cs[..n]), []) == [];
    }
  }

  lemma {:induction false} WrittenMeansBuilt(c: Comp)
    requires Scoped(Written(c), 0)
    ensures Mean(Written(c), []) == Build(c)
    decreases c, 1
  {
    match c
    case Chain(steps) =>
      AllWrittenBuilt(steps);
      ChainLoopBuilds(steps);
    case Group(branches) =>
      AllWrittenBuilt(branches);
      GroupLoopBuilds(branches);
    case Chord(body, _) => WrittenMeansBuilt(body);
    case Task(_) =>
  }

  lemma {:induction false} AllWrittenBuilt(cs: seq<Comp>)
    requires AllScoped(WrittenAll(cs), 0)
    ensures MeanAll(WrittenAll(cs), []) == Built(cs)
    decreases cs, 0
  {
    forall i | 0 <= i < |cs| ensures MeanAll(WrittenAll(cs), [])[i] == Built(cs)[i] {
      MeanAt(WrittenAll(cs), [], i);
      WrittenAt(cs, i);
      WrittenMeansBuilt(cs[i]);
    }
  }

  /** A composition written in one expression, without naming any part of it,
      always builds the graph it denotes. */
  lemma WrittenBuilds(c: Comp)
    ensures Scoped(Written(c), 0)
    ensures var out := Eval(Written(c), []); ValueOf(out.ref, out.heap) == Build(c)
  {
    WrittenIsClosed(c);
    WrittenIsClean(c);
    WrittenMeansBuilt(c);
    BuildsAsWrittenExactlyWhen(Written(c), []);
    assert Zeros(0) == [];
  }

  /** A new object with the tasks as they are written, in the order written, and the
      graph the composition denotes. */
  method EvaluateComposition(c: Comp) returns (flow: Workflow)
    ensures fresh(flow) && flow.Valid() && flow.Value() == Build(c) && flow.nodes == Tasks(c)
  {
    WrittenBuilds(c);
    BuildKeepsTasks(c);
    var item, objects := Evaluate(Written(c), []);
    flow := AsWorkflow(item);
  }
}
