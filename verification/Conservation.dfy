/** A corporate-action migration conserves the portfolio: as many positions, the same ids, the same
    total mark (_apply_effective_corporate_actions in src/ashare_quant/backtest/engine.py). */
module Conservation {
  import opened Basics
  import opened Ledgers
  import opened CorporateActions

  type Positions = map<Code, PositionState>

  function MarkOf(at: Positions, c: Code): real {
    if c in at then OrZero(Mark(at[c])) else 0.0
  }

  /** The summed marks of the listed codes. */
  function TotalMark(at: Positions, codes: seq<Code>): real {
    if codes == [] then 0.0 else TotalMark(at, codes[..|codes| - 1]) + MarkOf(at, codes[|codes| - 1])
  }

  function IdsOf(at: Positions): set<PositionId> {
    set c | c in at :: at[c].id
  }

  lemma {:induction false} TotalIgnores(at: Positions, other: Positions, codes: seq<Code>)
    requires forall c :: c in codes ==> MarkOf(at, c) == MarkOf(other, c)
    ensures TotalMark(at, codes) == TotalMark(other, codes)
  {
    if codes != [] {
      assert codes[|codes| - 1] in codes;
      TotalIgnores(at, other, codes[..|codes| - 1]);
    }
  }

  lemma {:induction false} WithoutAbsent(codes: seq<Code>, x: Code)
    requires x !in codes
    ensures Without(codes, x) == codes
  {
    if codes != [] {
      WithoutAbsent(codes[..|codes| - 1], x);
    }
  }

  lemma {:induction false} TotalWithout(at: Positions, codes: seq<Code>, x: Code)
    requires NoDuplicates(codes) && x in codes
    ensures TotalMark(at, Without(codes, x)) == TotalMark(at, codes) - MarkOf(at, x)
    ensures |Without(codes, x)| == |codes| - 1
  {
    var front, last := codes[..|codes| - 1], codes[|codes| - 1];
    assert codes == front + [last];
    if last == x {
      assert x !in front;
      WithoutAbsent(front, x);
    } else {
      TotalWithout(at, front, x);
      TotalSnoc(at, Without(front, x), last);
    }
  }

  lemma TotalSnoc(at: Positions, codes: seq<Code>, c: Code)
    ensures TotalMark(at, codes + [c]) == TotalMark(at, codes) + MarkOf(at, c)
  {
    assert (codes + [c])[..|codes|] == codes;
  }

  /** Moving one position to a free code with an unchanged mark changes no total. */
  lemma RelocationConserves(book: Book, source: Code, p: PositionState)
    requires book.Valid() && source in book.at && (p.code == source || p.code !in book.at)
    requires Mark(p) == Mark(book.at[source])
    ensures var after := Relocate(book, source, p);
            TotalMark(after.at, after.order) == TotalMark(book.at, book.order) && |after.order| == |book.order|
  {
    hide Mark, NoDuplicates;
    var deleted := book.Delete(source);
    WithoutKeepsOthers(book.order, source);
    TotalWithout(book.at, book.order, source);
    var after := Relocate(book, source, p);
    assert p.code !in deleted.at && p.code !in deleted.order;
    TotalIgnores(book.at, after.at, deleted.order);
    TotalSnoc(after.at, deleted.order, p.code);
  }

  /** Where a plan's position stands when its turn comes: untouched, with its target free. */
  lemma TurnComes(book: Book, plans: seq<Plan>, n: nat)
    requires 0 < n <= |plans| && FreeTargets(book.at.Keys, SourcesOf(plans), TargetsOf(plans))
    ensures var at := Replaced(book.at, SourcesOf(plans), TargetsOf(plans), ArrivalsOf(plans), n - 1);
            var source, target := plans[n - 1].source, Target(plans[n - 1]);
            && source in book.at && source in at && at[source] == book.at[source]
            && (target == source || target !in at)
  {
    hide Target, Mark, FreeTargets, Replaced, SourcesOf, TargetsOf;
    var sources, targets := SourcesOf(plans), TargetsOf(plans);
    assert |sources| == |targets| == |plans| && sources[n - 1] == plans[n - 1].source && targets[n - 1] == Target(plans[n - 1]) by {
      PlansListed(plans, n - 1);
    }
    KeyComesFree(book.at, sources, targets, ArrivalsOf(plans), n);
  }

  lemma PlansListed(plans: seq<Plan>, i: nat)
    requires i < |plans|
    ensures |SourcesOf(plans)| == |TargetsOf(plans)| == |plans|
    ensures SourcesOf(plans)[i] == plans[i].source && TargetsOf(plans)[i] == Target(plans[i])
  {}

  lemma KeyComesFree(at: Positions, sources: seq<Code>, targets: seq<Code>, arrivals: seq<PositionState>, n: nat)
    requires 0 < n <= |sources| == |targets| == |arrivals| && FreeTargets(at.Keys, sources, targets)
    ensures var after, source, target := Replaced(at, sources, targets, arrivals, n - 1), sources[n - 1], targets[n - 1];
            && source in at && source in after && after[source] == at[source]
            && (target == source || target !in after)
  {
    AssignedAt(targets, arrivals, n - 1);
    assert forall i :: 0 <= i < n - 1 ==> sources[i] != sources[n - 1] && targets[i] != targets[n - 1];
    assert forall i :: 0 <= i < n - 1 ==> targets[i] != sources[n - 1];
  }

  lemma {:induction false} CarryOutConserves(book: Book, plans: seq<Plan>, n: nat)
    requires book.Valid() && n <= |plans| && FreeTargets(book.at.Keys, SourcesOf(plans), TargetsOf(plans))
    requires forall i :: 0 <= i < |plans| ==> plans[i].source in book.at && plans[i].position == book.at[plans[i].source]
    requires CarryOut(book, plans, n).Ok?
    ensures var after := CarryOut(book, plans, n).value.book;
            TotalMark(after.at, after.order) == TotalMark(book.at, book.order) && |after.order| == |book.order|
  {
    hide FreeTargets, Dict.Valid, ConvertAll, Relocate, Replaced, Mark, Target;
    if n > 0 {
      CarryOutConserves(book, plans, n - 1);
      CarryOutEffect(book, plans, n - 1);
      TurnComes(book, plans, n);
      var plan := plans[n - 1];
      var moved := ConvertAll(plan.position, plan.chain, |plan.chain|).value;
      ConvertAllIsFaithful(plan.position, plan.chain, |plan.chain|);
      ArrivedCode(plan);
      RelocationConserves(CarryOut(book, plans, n - 1).value.book, plan.source, moved.position);
    }
  }

  lemma MigrationKeepsIds(ts: Transitions, book: Book, date: Date, after: Book)
    requires Keyed(book) && Relocated(ts, book, date, after)
    ensures IdsOf(after.at) == IdsOf(book.at)
  {
    hide Fate, Keyed, ChainOf, FaithfulRow, MaximalPath, Due, Dict.Valid, Mark;
    forall c | c in book.at
      ensures Fate(ts, book, date, c).Ok? && Fate(ts, book, date, c).value.position.id == book.at[c].id
    {
      FateIsFaithful(ts, book, date, c);
    }
    forall q | q in IdsOf(book.at)
      ensures q in IdsOf(after.at)
    {
      var c :| c in book.at && book.at[c].id == q;
      assert Fate(ts, book, date, c).value.position.code in after.at;
    }
  }

  lemma MigrationKeepsTotal(ts: Transitions, book: Book, date: Date)
    requires Keyed(book) && ApplyEffective(ts, book, date).Ok?
    ensures var after := ApplyEffective(ts, book, date).value.book;
            |after.order| == |book.order| && TotalMark(after.at, after.order) == TotalMark(book.at, book.order)
  {
    hide PlansFor, CarryOut, FreeTargets, TotalMark, PlansDescribe, PlansCover, Replaced, Convertible;
    var plans := MigrationReplaces(ts, book, date);
    SourcesHeld(ts, book, date, plans);
    CarryOutConserves(book, plans, |plans|);
  }

  /** A migration that succeeds keeps the number of positions, their ids and their total mark. */
  lemma MigrationConserves(ts: Transitions, book: Book, date: Date)
    requires Keyed(book) && ApplyEffective(ts, book, date).Ok?
    ensures var after := ApplyEffective(ts, book, date).value.book;
            && |after.order| == |book.order|
            && IdsOf(after.at) == IdsOf(book.at)
            && TotalMark(after.at, after.order) == TotalMark(book.at, book.order)
  {
    hide ApplyEffective, Relocated, IdsOf, TotalMark, Keyed;
    MigrationKeepsTotal(ts, book, date);
    MigrationRelocates(ts, book, date);
    MigrationKeepsIds(ts, book, date, ApplyEffective(ts, book, date).value.book);
  }

  lemma SourcesHeld(ts: Transitions, book: Book, date: Date, plans: seq<Plan>)
    requires PlansDescribe(ts, book, date, |book.order|, plans)
    ensures forall i :: 0 <= i < |plans| ==> plans[i].source in book.at && plans[i].position == book.at[plans[i].source]
  {
    forall i | 0 <= i < |plans|
      ensures plans[i].source in book.at && plans[i].position == book.at[plans[i].source]
    {
      assert IsPlanFor(ts, book, date, plans[i]);
    }
  }
}
