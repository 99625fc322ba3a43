/** When the planning of a migration fails, and why: the chain of a position breaks at its first illegal
    step, and the plans collide at the first position that cannot move
    (_apply_effective_corporate_actions in src/ashare_quant/backtest/engine.py, lines 634-689, and
    src/ashare_quant/backtest/corporate_actions.py, lines 70-90). */
module Planning {
  import opened Basics
  import opened Ledgers
  import opened CorporateActions

  // ----- one transition -----

  /** Why a transition is executed or not: only a code change of the same listed entity with a positive
      ratio is. */
  ghost predicate IsEligibility(t: Transition, x: Eligibility) {
    var plain := t.transitionType == CodeChangeContinuity && t.continuity == SameListedEntity;
    match x
    case Supported => plain && t.ratio.Some? && t.ratio.value > 0.0
    case UnsupportedTransitionType => t.transitionType in {RestructuringCodeChange, MergerSuccessor, ShareConversion}
    case UnsupportedContinuityType => t.transitionType == CodeChangeContinuity && t.continuity == SuccessorEntity
    case EvidenceInsufficient => plain && t.ratio == None
    case InvalidRatio => plain && t.ratio.Some? && t.ratio.value <= 0.0
  }

  lemma ClassifyIff(t: Transition, x: Eligibility)
    ensures Classify(t) == x <==> IsEligibility(t, x)
  {}

  // ----- one chain -----

  ghost function Visited(chain: seq<Transition>): set<Code> {
    set t | t in chain :: t.predecessor
  }

  /** The next transition of a chain may not be taken: it leads back, it is no later than the one before,
      or it is not supported. */
  ghost predicate StepFaulty(chain: seq<Transition>, t: Transition, f: Fault) {
    var back := t.predecessor in Visited(chain) || t.successor in Visited(chain);
    var early := chain != [] && t.effective <= chain[|chain| - 1].effective;
    match f
    case ChainCycle => back
    case ChainDatesNotIncreasing => !back && early
    case UnsupportedAction(reason) => !back && !early && reason != Supported && IsEligibility(t, reason)
    case _ => false
  }

  ghost predicate StepLegal(chain: seq<Transition>, t: Transition) {
    forall f :: !StepFaulty(chain, t, f)
  }

  /** The transition of the code that a chain has reached, once it is due. */
  ghost predicate Reaches(ts: Transitions, code: Code, date: Date, chain: seq<Transition>, t: Transition) {
    var at := EndOf(code, chain);
    at in ts && ts[at] == t && t.effective <= date
  }

  /** Every transition is due at the code that the ones before it have reached, and may be taken. */
  ghost predicate LegalChain(ts: Transitions, code: Code, date: Date, chain: seq<Transition>) {
    forall k :: 0 <= k < |chain| ==> Reaches(ts, code, date, chain[..k], chain[k]) && StepLegal(chain[..k], chain[k])
  }

  /** The chain is complete: nothing more is due where it ends. */
  ghost predicate Arrives(ts: Transitions, code: Code, date: Date, chain: seq<Transition>) {
    LegalChain(ts, code, date, chain) && forall t :: !Reaches(ts, code, date, chain, t)
  }

  /** The chain breaks: a transition is due where it has come to, and may not be taken. */
  ghost predicate BreaksAt(ts: Transitions, code: Code, date: Date, chain: seq<Transition>, f: Fault) {
    LegalChain(ts, code, date, chain) && exists t :: Reaches(ts, code, date, chain, t) && StepFaulty(chain, t, f)
  }

  lemma StepLegalIff(chain: seq<Transition>, t: Transition)
    ensures StepLegal(chain, t) <==>
            t.predecessor !in Visited(chain) && t.successor !in Visited(chain)
            && (chain != [] ==> chain[|chain| - 1].effective < t.effective) && Classify(t) == Supported
  {
    hide Visited, Classify, IsEligibility;
    forall x
      ensures Classify(t) == x <==> IsEligibility(t, x)
    {
      ClassifyIff(t, x);
    }
    if t.predecessor in Visited(chain) || t.successor in Visited(chain) {
      assert StepFaulty(chain, t, ChainCycle);
    } else if chain != [] && t.effective <= chain[|chain| - 1].effective {
      assert StepFaulty(chain, t, ChainDatesNotIncreasing);
    } else if Classify(t) != Supported {
      assert StepFaulty(chain, t, UnsupportedAction(Classify(t)));
    }
  }

  lemma LegalSnoc(ts: Transitions, code: Code, date: Date, chain: seq<Transition>, t: Transition)
    ensures LegalChain(ts, code, date, chain + [t]) <==>
            LegalChain(ts, code, date, chain) && Reaches(ts, code, date, chain, t) && StepLegal(chain, t)
  {
    hide Reaches, StepLegal;
    var longer := chain + [t];
    assert forall k :: 0 <= k < |chain| ==> longer[..k] == chain[..k] && longer[k] == chain[k];
    assert longer[..|chain|] == chain && longer[|chain|] == t;
  }

  lemma VisitedSnoc(chain: seq<Transition>, t: Transition)
    ensures Visited(chain + [t]) == Visited(chain) + {t.predecessor} && EndOf(t.predecessor, chain + [t]) == t.successor
  {
    assert forall x :: x in chain + [t] <==> x in chain || x == t;
  }

  /** Where the walk continues after a legal chain: it completes it, or it breaks at the first step that
      may not be taken. */
  lemma {:induction false} WalkOn(ts: Transitions, code: Code, date: Date, chain: seq<Transition>) returns (more: seq<Transition>)
    requires Indexed(ts) && LegalChain(ts, code, date, chain)
    ensures var walk := Walk(ts, EndOf(code, chain), date, Visited(chain), if chain == [] then None else Some(chain[|chain| - 1].effective));
            match walk
            case Ok(rest) => rest == more && Arrives(ts, code, date, chain + more)
            case Err(f) => BreaksAt(ts, code, date, chain + more, f)
    decreases ts.Keys - Visited(chain)
  {
    hide Visited, LegalChain, StepLegal;
    var at, previous := EndOf(code, chain), if chain == [] then None else Some(chain[|chain| - 1].effective);
    more := [];
    assert chain + [] == chain;
    if Due(ts, at, date) {
      var t := ts[at];
      assert Reaches(ts, code, date, chain, t);
      assert t.predecessor == at;
      StepLegalIff(chain, t);
      if StepLegal(chain, t) {
        LegalSnoc(ts, code, date, chain, t);
        VisitedSnoc(chain, t);
        assert EndOf(code, chain + [t]) == t.successor;
        var rest := WalkOn(ts, code, date, chain + [t]);
        more := [t] + rest;
        assert chain + more == chain + [t] + rest;
      } else {
        FaultOf(chain, t);
      }
    }
  }

  lemma FaultOf(chain: seq<Transition>, t: Transition)
    requires !StepLegal(chain, t)
    ensures StepFaulty(chain, t,
              if t.predecessor in Visited(chain) || t.successor in Visited(chain) then ChainCycle
              else if chain != [] && t.effective <= chain[|chain| - 1].effective then ChainDatesNotIncreasing
              else UnsupportedAction(Classify(t)))
  {
    hide Visited, Classify, IsEligibility;
    forall x
      ensures Classify(t) == x <==> IsEligibility(t, x)
    {
      ClassifyIff(t, x);
    }
  }

  /** Legal chains from one code are prefixes of each other. */
  lemma {:induction false} ChainsAgree(ts: Transitions, code: Code, date: Date, a: seq<Transition>, b: seq<Transition>, n: nat)
    requires LegalChain(ts, code, date, a) && LegalChain(ts, code, date, b) && n <= |a| && n <= |b|
    ensures a[..n] == b[..n]
  {
    hide StepLegal;
    if n > 0 {
      ChainsAgree(ts, code, date, a, b, n - 1);
      assert Reaches(ts, code, date, a[..n - 1], a[n - 1]) && Reaches(ts, code, date, b[..n - 1], b[n - 1]);
      assert a[..n] == a[..n - 1] + [a[n - 1]] && b[..n] == b[..n - 1] + [b[n - 1]];
    }
  }

  /** A chain that goes on neither arrives nor breaks. */
  lemma GoesOn(ts: Transitions, code: Code, date: Date, a: seq<Transition>, b: seq<Transition>)
    requires LegalChain(ts, code, date, b) && |a| < |b| && a == b[..|a|]
    ensures !Arrives(ts, code, date, a) && forall f :: !BreaksAt(ts, code, date, a, f)
  {
    hide StepFaulty;
    assert Reaches(ts, code, date, a, b[|a|]) && StepLegal(a, b[|a|]);
  }

  /** A chain that breaks or arrives has no longer and no shorter rival. */
  lemma EndsAlone(ts: Transitions, code: Code, date: Date, a: seq<Transition>, b: seq<Transition>)
    requires LegalChain(ts, code, date, a) && LegalChain(ts, code, date, b)
    requires Arrives(ts, code, date, a) || exists f :: BreaksAt(ts, code, date, a, f)
    ensures |b| <= |a| && a[..|b|] == b
  {
    hide Arrives, BreaksAt, LegalChain;
    var n := if |a| <= |b| then |a| else |b|;
    ChainsAgree(ts, code, date, a, b, n);
    assert a[..|a|] == a && b[..|b|] == b;
    if n < |b| {
      GoesOn(ts, code, date, a, b);
    }
  }

  /** The chain of a position is the one that arrives; there is none exactly if a legal chain breaks, with
      the fault of the step at which it does. */
  lemma ChainIff(ts: Transitions, code: Code, date: Date, r: Result<seq<Transition>, Fault>)
    requires Indexed(ts)
    ensures ChainOf(ts, code, date) == r <==>
            match r
            case Ok(chain) => Arrives(ts, code, date, chain)
            case Err(f) => exists chain :: BreaksAt(ts, code, date, chain, f)
  {
    hide Arrives, BreaksAt;
    assert LegalChain(ts, code, date, []);
    var more := WalkOn(ts, code, date, []);
    assert [] + more == more && Visited([]) == {};
    var actual := ChainOf(ts, code, date);
    match r
    case Ok(chain) =>
      if Arrives(ts, code, date, chain) {
        OneEnd(ts, code, date, more, chain, if actual.Ok? then None else Some(actual.error), None);
      }
    case Err(f) =>
      if chain :| BreaksAt(ts, code, date, chain, f) {
        OneEnd(ts, code, date, more, chain, if actual.Ok? then None else Some(actual.error), Some(f));
      }
  }

  /** The end of a chain: it arrives, or it breaks with a fault. */
  ghost predicate EndsIn(ts: Transitions, code: Code, date: Date, chain: seq<Transition>, f: Option<Fault>) {
    match f
    case None => Arrives(ts, code, date, chain)
    case Some(x) => BreaksAt(ts, code, date, chain, x)
  }

  lemma OneEnd(ts: Transitions, code: Code, date: Date, a: seq<Transition>, b: seq<Transition>, f: Option<Fault>, g: Option<Fault>)
    requires EndsIn(ts, code, date, a, f) && EndsIn(ts, code, date, b, g)
    ensures a == b && f == g
  {
    hide StepFaulty, LegalChain;
    assert f.Some? ==> BreaksAt(ts, code, date, a, f.value);
    assert g.Some? ==> BreaksAt(ts, code, date, b, g.value);
    EndsAlone(ts, code, date, a, b);
    EndsAlone(ts, code, date, b, a);
    assert a == b;
    if f.Some? && g.Some? {
      var t :| Reaches(ts, code, date, a, t) && StepFaulty(a, t, f.value);
      var u :| Reaches(ts, code, date, b, u) && StepFaulty(b, u, g.value);
      OneFault(a, t, f.value, g.value);
    }
  }

  lemma OneFault(chain: seq<Transition>, t: Transition, f: Fault, g: Fault)
    requires StepFaulty(chain, t, f) && StepFaulty(chain, t, g)
    ensures f == g
  {
    hide Visited;
  }

  // ----- all plans -----

  ghost predicate MovesTo(ts: Transitions, book: Book, date: Date, n: nat, chain: seq<Transition>)
    requires n < |book.order|
  {
    book.order[n] in book.at && chain != [] && ChainOf(ts, book.at[book.order[n]].code, date) == Ok(chain)
  }

  /** Position n is to move to the end of its chain. */
  ghost predicate HeadsFor(ts: Transitions, book: Book, date: Date, n: nat, end: Code)
    requires n < |book.order|
  {
    exists chain: seq<Transition> :: MovesTo(ts, book, date, n, chain) && chain[|chain| - 1].successor == end
  }

  /** One of the first n positions moves to the code. */
  ghost predicate Targeted(ts: Transitions, book: Book, date: Date, n: nat, end: Code)
    requires n <= |book.order|
  {
    exists m :: 0 <= m < n && HeadsFor(ts, book, date, m, end)
  }

  /** A code on the way is held by another position. */
  ghost predicate Occupied(book: Book, source: Code, chain: seq<Transition>) {
    exists t :: t in chain && t.successor in book.at && t.successor != source
  }

  /** What keeps position n from being planned, given the positions before it. */
  ghost predicate PlanFaulty(ts: Transitions, book: Book, date: Date, n: nat, f: Fault)
    requires n < |book.order|
  {
    && book.order[n] in book.at
    && match ChainOf(ts, book.at[book.order[n]].code, date)
       case Err(e) => f == e
       case Ok(chain) =>
         chain != []
         && if Occupied(book, book.order[n], chain) then f == SuccessorAlreadyHeld
            else f == SeveralPositionsTarget(chain[|chain| - 1].successor) && Targeted(ts, book, date, n, chain[|chain| - 1].successor)
  }

  ghost predicate Plannable(ts: Transitions, book: Book, date: Date, n: nat)
    requires n < |book.order|
  {
    forall f :: !PlanFaulty(ts, book, date, n, f)
  }

  /** Position k is the first that cannot be planned, for this reason. */
  ghost predicate FirstFaulty(ts: Transitions, book: Book, date: Date, n: nat, k: nat, f: Fault)
    requires n <= |book.order|
  {
    k < n && PlanFaulty(ts, book, date, k, f) && forall j :: 0 <= j < k ==> Plannable(ts, book, date, j)
  }

  /** The plans: those of the positions that move. */
  ghost predicate PlansAre(ts: Transitions, book: Book, date: Date, n: nat, plans: seq<Plan>)
    requires n <= |book.order|
  {
    forall p :: p in plans <==>
      exists k :: 0 <= k < n && p.source == book.order[k] && MovesTo(ts, book, date, k, p.chain) && p.position == book.at[p.source]
  }

  lemma OccupiedIff(book: Book, source: Code, chain: seq<Transition>)
    ensures (Successors(chain) * book.at.Keys) - {source} != {} <==> Occupied(book, source, chain)
  {
    var found := (Successors(chain) * book.at.Keys) - {source};
    if found != {} {
      var c :| c in found;
      var t :| t in chain && t.successor == c;
    }
    if t :| t in chain && t.successor in book.at && t.successor != source {
      assert t.successor in found;
    }
  }

  lemma TargetIff(ts: Transitions, book: Book, date: Date, n: nat, plans: seq<Plan>, end: Code)
    requires n <= |book.order| && PlansAre(ts, book, date, n, plans)
    ensures end in Targets(plans) <==> Targeted(ts, book, date, n, end)
  {
    hide ChainOf;
    if end in Targets(plans) {
      var p :| p in plans && Target(p) == end;
      var k :| 0 <= k < n && p.source == book.order[k] && MovesTo(ts, book, date, k, p.chain) && p.position == book.at[p.source];
      assert HeadsFor(ts, book, date, k, end);
    }
    if m :| 0 <= m < n && HeadsFor(ts, book, date, m, end) {
      var chain: seq<Transition> :| MovesTo(ts, book, date, m, chain) && chain[|chain| - 1].successor == end;
      var p := Plan(book.order[m], book.at[book.order[m]], chain);
      assert p in plans && Target(p) == end;
    }
  }

  /** The planning succeeds exactly if every position can be planned after the ones before it, and then
      plans exactly the positions that move; otherwise it reports the fault of the first that cannot. */
  lemma {:induction false} PlansIff(ts: Transitions, book: Book, date: Date, n: nat)
    requires book.Valid() && n <= |book.order|
    ensures match PlansFor(ts, book, date, n)
            case Ok(plans) => (forall k :: 0 <= k < n ==> Plannable(ts, book, date, k)) && PlansAre(ts, book, date, n, plans)
            case Err(f) => exists k :: FirstFaulty(ts, book, date, n, k, f)
  {
    hide ChainOf, PlanFaulty, PlansAre, Plannable;
    if n == 0 {
      NothingPlanned(ts, book, date);
    } else {
      PlansIff(ts, book, date, n - 1);
      assert book.order[n - 1] in book.order;
      var before := PlansFor(ts, book, date, n - 1);
      if before.Ok? {
        PlanStep(ts, book, date, n, before.value);
        if PlansFor(ts, book, date, n).Err? {
          assert FirstFaulty(ts, book, date, n, n - 1, PlansFor(ts, book, date, n).error);
        }
      } else {
        var k :| FirstFaulty(ts, book, date, n - 1, k, before.error);
        assert FirstFaulty(ts, book, date, n, k, before.error);
        assert PlansFor(ts, book, date, n) == Err(before.error);
      }
    }
  }

  lemma NothingPlanned(ts: Transitions, book: Book, date: Date)
    ensures PlansAre(ts, book, date, 0, [])
  {}

  lemma PlanStep(ts: Transitions, book: Book, date: Date, n: nat, plans: seq<Plan>)
    requires 0 < n <= |book.order| && book.order[n - 1] in book.at && PlansFor(ts, book, date, n - 1) == Ok(plans) && PlansAre(ts, book, date, n - 1, plans)
    ensures match PlansFor(ts, book, date, n)
            case Ok(more) => Plannable(ts, book, date, n - 1) && PlansAre(ts, book, date, n, more)
            case Err(f) => PlanFaulty(ts, book, date, n - 1, f)
  {
    hide ChainOf, PlansAre, Occupied, Successors, Targets, Targeted;
    var source := book.order[n - 1];
    if source in book.at {
      var planned := ChainOf(ts, book.at[source].code, date);
      if planned.Ok? {
        OccupiedIff(book, source, planned.value);
        TargetIff(ts, book, date, n - 1, plans, EndOf(book.at[source].code, planned.value));
        PlansGrow(ts, book, date, n, plans, planned.value);
      }
    }
  }

  lemma PlansGrow(ts: Transitions, book: Book, date: Date, n: nat, plans: seq<Plan>, chain: seq<Transition>)
    requires 0 < n <= |book.order| && PlansAre(ts, book, date, n - 1, plans)
    requires book.order[n - 1] in book.at && ChainOf(ts, book.at[book.order[n - 1]].code, date) == Ok(chain)
    ensures PlansAre(ts, book, date, n, if chain == [] then plans else plans + [Plan(book.order[n - 1], book.at[book.order[n - 1]], chain)])
  {
    hide ChainOf;
    var last := Plan(book.order[n - 1], book.at[book.order[n - 1]], chain);
    forall p
      ensures p in plans + [last] <==> p in plans || p == last
    {}
  }
}
