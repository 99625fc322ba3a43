/** Effective-dated code changes of held positions: eligibility, chain planning, collision
    checks and the migration itself (src/ashare_quant/backtest/corporate_actions.py and
    _apply_effective_corporate_actions in src/ashare_quant/backtest/engine.py). */
module CorporateActions {
  import opened Basics
  import opened Ledgers

  datatype TransitionType = CodeChangeContinuity | RestructuringCodeChange | MergerSuccessor | ShareConversion
  datatype Continuity = SameListedEntity | SuccessorEntity

  datatype Transition = Transition(
    predecessor: Code,
    successor: Code,
    effective: Date,
    transitionType: TransitionType,
    continuity: Continuity,
    ratio: Option<real>,
    evidence: nat)

  datatype Eligibility =
    | Supported
    | UnsupportedTransitionType
    | UnsupportedContinuityType
    | EvidenceInsufficient
    | InvalidRatio

  function Classify(t: Transition): Eligibility {
    if t.transitionType != CodeChangeContinuity then UnsupportedTransitionType
    else if t.continuity != SameListedEntity then UnsupportedContinuityType
    else match t.ratio
      case None => EvidenceInsufficient
      case Some(r) => if r <= 0.0 then InvalidRatio else Supported
  }

  type Transitions = map<Code, Transition>

  /** The transitions are indexed by their own predecessor. */
  ghost predicate Indexed(ts: Transitions) {
    forall c :: c in ts ==> ts[c].predecessor == c
  }

  predicate Due(ts: Transitions, code: Code, date: Date) {
    code in ts && ts[code].effective <= date
  }

  datatype Fault =
    | ChainCycle
    | ChainDatesNotIncreasing
    | UnsupportedAction(reason: Eligibility)
    | SuccessorAlreadyHeld
    | SeveralPositionsTarget(code: Code)
    | ActionRatioMissing
    | ActionValueInvalid
    | ActionMarkChanged
    | KeyMissing

  // ----- planning -----

  /** The chain of due transitions that starts at a code. */
  function Walk(ts: Transitions, code: Code, date: Date, seen: set<Code>, previous: Option<Date>)
    : Result<seq<Transition>, Fault>
    decreases ts.Keys - seen
  {
    if !Due(ts, code, date) then Ok([])
    else
      var t := ts[code];
      if code in seen || t.successor in seen then Err(ChainCycle)
      else if previous.Some? && t.effective <= previous.value then Err(ChainDatesNotIncreasing)
      else if Classify(t) != Supported then Err(UnsupportedAction(Classify(t)))
      else
        var rest :- Walk(ts, t.successor, date, seen + {code}, Some(t.effective));
        Ok([t] + rest)
  }

  function ChainOf(ts: Transitions, code: Code, date: Date): Result<seq<Transition>, Fault> {
    Walk(ts, code, date, {}, None)
  }

  function Successors(chain: seq<Transition>): set<Code> {
    set t | t in chain :: t.successor
  }

  function EndOf(code: Code, chain: seq<Transition>): Code {
    if chain == [] then code else chain[|chain| - 1].successor
  }

  datatype Plan = Plan(source: Code, position: PositionState, chain: seq<Transition>)

  function Target(p: Plan): Code { EndOf(p.position.code, p.chain) }

  function Targets(plans: seq<Plan>): set<Code> {
    set p | p in plans :: Target(p)
  }

  type Book = Dict<Code, PositionState>

  /** The plans made for the first n positions of the book, in book order. */
  function PlansFor(ts: Transitions, book: Book, date: Date, n: nat): Result<seq<Plan>, Fault>
    requires n <= |book.order|
  {
    if n == 0 then Ok([])
    else if book.order[n - 1] !in book.at then Err(KeyMissing)
    else
      var plans :- PlansFor(ts, book, date, n - 1);
      var source := book.order[n - 1];
      var position := book.at[source];
      var chain :- ChainOf(ts, position.code, date);
      if chain == [] then Ok(plans)
      else if (Successors(chain) * book.at.Keys) - {source} != {} then Err(SuccessorAlreadyHeld)
      else if EndOf(position.code, chain) in Targets(plans) then
        Err(SeveralPositionsTarget(EndOf(position.code, chain)))
      else Ok(plans + [Plan(source, position, chain)])
  }

  // ----- mutation -----

  const MARK_TOLERANCE := 0.0000000001

  datatype Moved = Moved(position: PositionState, rows: seq<Action>)

  datatype Converted = Converted(position: PositionState, row: Action)

  /** One share conversion of one position, with its ledger row. */
  function Convert(p: PositionState, t: Transition): Result<Converted, Fault> {
    match t.ratio
    case None => Err(ActionRatioMissing)
    case Some(ratio) =>
      match p.lastClose
      case None => Err(ActionValueInvalid)
      case Some(close) =>
        if p.shares <= 0.0 || close <= 0.0 || ratio <= 0.0 then Err(ActionValueInvalid)
        else
          var newShares := Times(p.shares, ratio);
          var adjusted := Over(close, ratio);
          var before, after := Times(p.shares, close), Times(newShares, adjusted);
          if newShares <= 0.0 || adjusted <= 0.0 || before <= 0.0 || after <= 0.0 then Err(ActionValueInvalid)
          else if !IsClose(before, after, MARK_TOLERANCE, MARK_TOLERANCE) then Err(ActionMarkChanged)
          else
            Ok(Converted(
                 p.(code := t.successor, shares := newShares, lastClose := Some(adjusted)),
                 Action(t.effective, p.id, t.predecessor, t.successor, p.shares, newShares, ratio,
                        close, adjusted, before, after, after - before, 0.0, t.evidence)))
  }

  /** The position after the first n conversions of a chain. */
  function ConvertAll(p: PositionState, chain: seq<Transition>, n: nat): Result<Moved, Fault>
    requires n <= |chain|
  {
    if n == 0 then Ok(Moved(p, []))
    else
      var m :- ConvertAll(p, chain, n - 1);
      var next :- Convert(m.position, chain[n - 1]);
      Ok(Moved(next.position, m.rows + [next.row]))
  }

  datatype Migration = Migration(book: Book, rows: seq<Action>)

  /** A position leaves its old key and is filed last under its new code. */
  function Relocate(book: Book, source: Code, p: PositionState): (after: Book)
    ensures book.Valid() ==> after.Valid()
    ensures after.at == (book.at - {source})[p.code := p]
  {
    book.Delete(source).Put(p.code, p)
  }

  /** The book after the first n plans have been carried out. */
  function CarryOut(book: Book, plans: seq<Plan>, n: nat): Result<Migration, Fault>
    requires n <= |plans|
  {
    if n == 0 then Ok(Migration(book, []))
    else
      var m :- CarryOut(book, plans, n - 1);
      var plan := plans[n - 1];
      var moved :- ConvertAll(plan.position, plan.chain, |plan.chain|);
      Ok(Migration(Relocate(m.book, plan.source, moved.position), m.rows + moved.rows))
  }

  function ApplyEffective(ts: Transitions, book: Book, date: Date): Result<Migration, Fault> {
    var plans :- PlansFor(ts, book, date, |book.order|);
    CarryOut(book, plans, |plans|)
  }

  // ----- chains -----

  /** A maximal run of due transitions from a code, dates strictly increasing. */
  ghost predicate MaximalPath(ts: Transitions, code: Code, date: Date, chain: seq<Transition>, previous: Option<Date>)
    decreases |chain|
  {
    if chain == [] then !Due(ts, code, date)
    else
      && Due(ts, code, date) && chain[0] == ts[code] && Classify(chain[0]) == Supported
      && (previous.Some? ==> previous.value < chain[0].effective)
      && MaximalPath(ts, chain[0].successor, date, chain[1..], Some(chain[0].effective))
  }

  /** A walk that succeeds returns the maximal run of due transitions and meets no code twice. */
  lemma {:induction false} WalkIsMaximal(ts: Transitions, code: Code, date: Date, seen: set<Code>, previous: Option<Date>)
    requires Walk(ts, code, date, seen, previous).Ok?
    ensures var chain := Walk(ts, code, date, seen, previous).value;
            && MaximalPath(ts, code, date, chain, previous)
            && (chain != [] ==> code !in seen)
            && Successors(chain) !! seen
    decreases ts.Keys - seen
  {
    if Due(ts, code, date) {
      var t := ts[code];
      var rest := Walk(ts, t.successor, date, seen + {code}, Some(t.effective)).value;
      WalkIsMaximal(ts, t.successor, date, seen + {code}, Some(t.effective));
      var chain := [t] + rest;
      assert chain[1..] == rest;
      assert Successors(chain) == {t.successor} + Successors(rest);
    }
  }

  lemma EndOfTail(code: Code, chain: seq<Transition>)
    requires chain != []
    ensures EndOf(chain[0].successor, chain[1..]) == EndOf(code, chain)
  {}

  /** Two maximal runs that leave the same code are the same run. */
  lemma {:induction false} MaximalPathsAgree(ts: Transitions, code: Code, date: Date,
      c1: seq<Transition>, p1: Option<Date>, c2: seq<Transition>, p2: Option<Date>)
    requires MaximalPath(ts, code, date, c1, p1) && MaximalPath(ts, code, date, c2, p2)
    ensures c1 == c2
    decreases |c1|
  {
    if c1 != [] {
      MaximalPathsAgree(ts, c1[0].successor, date, c1[1..], Some(c1[0].effective), c2[1..], Some(c2[0].effective));
      assert c1 == [c1[0]] + c1[1..] && c2 == [c2[0]] + c2[1..];
    }
  }

  /** Every code on a maximal run leads to the same end. */
  lemma {:induction false} PathEnd(ts: Transitions, code: Code, date: Date, chain: seq<Transition>, previous: Option<Date>, x: Code)
    returns (rest: seq<Transition>, from: Option<Date>)
    requires MaximalPath(ts, code, date, chain, previous)
    requires x == code || x in Successors(chain)
    ensures MaximalPath(ts, x, date, rest, from) && EndOf(x, rest) == EndOf(code, chain)
    decreases |chain|
  {
    if x == code {
      rest, from := chain, previous;
    } else {
      assert chain == [chain[0]] + chain[1..];
      EndOfTail(code, chain);
      rest, from := PathEnd(ts, chain[0].successor, date, chain[1..], Some(chain[0].effective), x);
    }
  }

  /** Due chains that meet anywhere end at the same code, so comparing final codes is enough to
      find every meeting of two planned chains. */
  lemma ChainsThatMeetEndTogether(ts: Transitions, c1: Code, c2: Code, date: Date, x: Code)
    requires ChainOf(ts, c1, date).Ok? && ChainOf(ts, c2, date).Ok?
    requires x == c1 || x in Successors(ChainOf(ts, c1, date).value)
    requires x == c2 || x in Successors(ChainOf(ts, c2, date).value)
    ensures EndOf(c1, ChainOf(ts, c1, date).value) == EndOf(c2, ChainOf(ts, c2, date).value)
  {
    WalkIsMaximal(ts, c1, date, {}, None);
    WalkIsMaximal(ts, c2, date, {}, None);
    var r1, p1 := PathEnd(ts, c1, date, ChainOf(ts, c1, date).value, None, x);
    var r2, p2 := PathEnd(ts, c2, date, ChainOf(ts, c2, date).value, None, x);
    MaximalPathsAgree(ts, x, date, r1, p1, r2, p2);
  }

  // ----- what planning establishes -----

  /** Keys of the book are the codes of its positions, which have shares. */
  ghost predicate Keyed(book: Book) {
    book.Valid() && forall c :: c in book.at ==> book.at[c].code == c && book.at[c].shares > 0.0
  }

  ghost predicate IsPlanFor(ts: Transitions, book: Book, date: Date, plan: Plan) {
    && plan.source in book.at
    && plan.position == book.at[plan.source]
    && ChainOf(ts, plan.source, date) == Ok(plan.chain)
    && plan.chain != []
    && Successors(plan.chain) * book.at.Keys <= {plan.source}
  }

  /** Every plan is the due chain of a position met so far. */
  ghost predicate PlansDescribe(ts: Transitions, book: Book, date: Date, n: nat, plans: seq<Plan>)
    requires n <= |book.order|
  {
    forall i :: 0 <= i < |plans| ==> IsPlanFor(ts, book, date, plans[i]) && plans[i].source in book.order[..n]
  }

  ghost predicate PlansDiffer(plans: seq<Plan>) {
    && (forall i, j :: 0 <= i < j < |plans| ==> plans[i].source != plans[j].source)
    && (forall i, j :: 0 <= i < j < |plans| ==> Target(plans[i]) != Target(plans[j]))
  }

  ghost predicate Planned(plans: seq<Plan>, c: Code) {
    exists p :: p in plans && p.source == c
  }

  /** Every position met so far has a chain, and a plan unless the chain is empty. */
  ghost predicate PlansCover(ts: Transitions, book: Book, date: Date, n: nat, plans: seq<Plan>)
    requires n <= |book.order|
  {
    forall k :: 0 <= k < n ==>
      && ChainOf(ts, book.order[k], date).Ok?
      && (ChainOf(ts, book.order[k], date).value == [] || Planned(plans, book.order[k]))
  }

  lemma {:induction false} PlansAreGood(ts: Transitions, book: Book, date: Date, n: nat)
    requires Keyed(book) && n <= |book.order|
    requires PlansFor(ts, book, date, n).Ok?
    ensures var plans := PlansFor(ts, book, date, n).value;
            PlansDescribe(ts, book, date, n, plans) && PlansDiffer(plans) && PlansCover(ts, book, date, n, plans)
  {
    if n > 0 {
      PlansAreGood(ts, book, date, n - 1);
      var before := PlansFor(ts, book, date, n - 1).value;
      var plans := PlansFor(ts, book, date, n).value;
      var source := book.order[n - 1];
      assert source in book.order;
      assert source !in book.order[..n - 1];
      PlansGrow(ts, book, date, n, before, plans);
      CoverGrows(ts, book, date, n, before, plans);
    }
  }

  ghost predicate Extends(ts: Transitions, book: Book, date: Date, n: nat, before: seq<Plan>, plans: seq<Plan>)
    requires 0 < n <= |book.order|
  {
    && ChainOf(ts, book.order[n - 1], date).Ok?
    && if ChainOf(ts, book.order[n - 1], date).value == [] then plans == before
       else
         && plans != [] && plans == before + [plans[|plans| - 1]]
         && IsPlanFor(ts, book, date, plans[|plans| - 1])
         && plans[|plans| - 1].source == book.order[n - 1]
         && Target(plans[|plans| - 1]) !in Targets(before)
  }

  lemma PlansGrow(ts: Transitions, book: Book, date: Date, n: nat, before: seq<Plan>, plans: seq<Plan>)
    requires 0 < n <= |book.order| && Extends(ts, book, date, n, before, plans)
    requires book.order[n - 1] !in book.order[..n - 1]
    requires PlansDescribe(ts, book, date, n - 1, before) && PlansDiffer(before)
    ensures PlansDescribe(ts, book, date, n, plans) && PlansDiffer(plans)
  {
    hide ChainOf, IsPlanFor;
    assert book.order[..n] == book.order[..n - 1] + [book.order[n - 1]];
    forall i | 0 <= i < |before|
      ensures Target(before[i]) in Targets(before) && plans[i] == before[i]
    {
      assert before[i] in before;
    }
  }

  lemma CoverGrows(ts: Transitions, book: Book, date: Date, n: nat, before: seq<Plan>, plans: seq<Plan>)
    requires 0 < n <= |book.order| && Extends(ts, book, date, n, before, plans)
    requires PlansCover(ts, book, date, n - 1, before)
    ensures PlansCover(ts, book, date, n, plans)
  {
    hide ChainOf, IsPlanFor, Target;
    assert forall p :: p in before ==> p in plans;
    if plans != before {
      assert plans[|plans| - 1] in plans;
    }
  }

  /** Planned chains share no code at all, and touch no other held code. */
  lemma PlannedChainsAreDisjoint(ts: Transitions, book: Book, date: Date, i: nat, j: nat)
    requires Keyed(book)
    requires PlansFor(ts, book, date, |book.order|).Ok?
    requires i < j < |PlansFor(ts, book, date, |book.order|).value|
    ensures var plans := PlansFor(ts, book, date, |book.order|).value;
            ({plans[i].source} + Successors(plans[i].chain)) !! ({plans[j].source} + Successors(plans[j].chain))
  {
    PlansAreGood(ts, book, date, |book.order|);
    var plans := PlansFor(ts, book, date, |book.order|).value;
    var p, q := plans[i], plans[j];
    if x :| x in {p.source} + Successors(p.chain) && x in {q.source} + Successors(q.chain) {
      ChainsThatMeetEndTogether(ts, p.source, q.source, date, x);
      assert false;
    }
  }

  // ----- what conversion keeps -----

  /** The mark of a position: shares times last valid close. */
  function Mark(p: PositionState): Option<real> {
    ValueAt(p.shares, p.lastClose)
  }

  lemma ConvertKeepsMark(p: PositionState, t: Transition)
    requires Convert(p, t).Ok?
    ensures Mark(Convert(p, t).value.position) == Mark(p)
    ensures SoundAction(Convert(p, t).value.row)
    ensures Convert(p, t).value.position.shares > 0.0
  {
    var q := Convert(p, t).value.position;
    var row := Convert(p, t).value.row;
    MarkIsPreserved(p.shares, p.lastClose.value, t.ratio.value, q.shares, q.lastClose.value);
    assert Mark(q) == Some(row.after) && Mark(p) == Some(row.before);
  }

  lemma MarkIsPreserved(shares: real, close: real, ratio: real, newShares: real, adjusted: real)
    requires ratio > 0.0 && newShares == shares * ratio && adjusted == close / ratio
    ensures Times(newShares, adjusted) == Times(shares, close)
  {
    assert adjusted * ratio == close;
    assert newShares * adjusted == shares * (adjusted * ratio);
  }

  lemma PositiveProducts(shares: real, close: real, ratio: real)
    requires shares > 0.0 && close > 0.0 && ratio > 0.0
    ensures shares * ratio > 0.0 && close / ratio > 0.0 && shares * close > 0.0
  {
    assert close / ratio * ratio == close;
  }

  /** A supported conversion fails exactly when the position has no positive mark. */
  lemma ConvertSucceedsIff(p: PositionState, t: Transition)
    requires Classify(t) == Supported && p.shares > 0.0
    ensures Convert(p, t).Ok? <==> p.lastClose.Some? && p.lastClose.value > 0.0
    ensures Convert(p, t).Ok? ==>
              var q := Convert(p, t).value.position;
              q.shares > 0.0 && q.lastClose.Some? && q.lastClose.value > 0.0
  {
    if p.lastClose.Some? && p.lastClose.value > 0.0 {
      var ratio, close := t.ratio.value, p.lastClose.value;
      PositiveProducts(p.shares, close, ratio);
      MarkIsPreserved(p.shares, close, ratio, p.shares * ratio, close / ratio);
      EqualIsClose(Times(p.shares, close), MARK_TOLERANCE, MARK_TOLERANCE);
    }
  }

  ghost predicate HasPositiveMark(p: PositionState) {
    p.shares > 0.0 && p.lastClose.Some? && p.lastClose.value > 0.0
  }

  lemma {:induction false} ConvertAllSucceeds(p: PositionState, chain: seq<Transition>, n: nat)
    requires n <= |chain|
    requires HasPositiveMark(p)
    requires forall t :: t in chain ==> Classify(t) == Supported
    ensures ConvertAll(p, chain, n).Ok? && HasPositiveMark(ConvertAll(p, chain, n).value.position)
  {
    if n > 0 {
      ConvertAllSucceeds(p, chain, n - 1);
      assert chain[n - 1] in chain;
      ConvertSucceedsIff(ConvertAll(p, chain, n - 1).value.position, chain[n - 1]);
    }
  }

  /** Row i of a chain's rows records transition i, on the shares the row before left. */
  ghost predicate FaithfulRow(p: PositionState, chain: seq<Transition>, rows: seq<Action>, i: nat)
    requires i < |chain| && i < |rows|
  {
    && rows[i].id == p.id
    && rows[i].effective == chain[i].effective
    && rows[i].predecessor == chain[i].predecessor
    && rows[i].successor == chain[i].successor
    && chain[i].ratio == Some(rows[i].ratio)
    && rows[i].evidence == chain[i].evidence
    && rows[i].oldShares == (if i == 0 then p.shares else rows[i - 1].newShares)
    && SoundAction(rows[i])
  }

  /** A converted position differs from the original only in code, shares and close; its mark
      is the same, and its rows lead from the original shares and code to the new ones. */
  ghost predicate FaithfulMove(p: PositionState, chain: seq<Transition>, n: nat, m: Moved)
    requires n <= |chain|
  {
    && m.position == p.(code := EndOf(p.code, chain[..n]), shares := m.position.shares, lastClose := m.position.lastClose)
    && Mark(m.position) == Mark(p)
    && (p.shares > 0.0 ==> m.position.shares > 0.0)
    && |m.rows| == n
    && (forall i :: 0 <= i < n ==> FaithfulRow(p, chain, m.rows, i))
    && m.position.shares == (if n == 0 then p.shares else m.rows[n - 1].newShares)
    && m.position.lastClose == Adjusted(p.lastClose, m.rows, 0, n)
  }

  /** A close after the conversions from one row to another: divided by each of their ratios. */
  function Adjusted(close: Option<real>, rows: seq<Action>, from: nat, to: nat): Option<real>
    requires to <= |rows|
  {
    if to <= from then close
    else
      match Adjusted(close, rows, from, to - 1)
      case None => None
      case Some(c) => if rows[to - 1].ratio == 0.0 then None else Some(Over(c, rows[to - 1].ratio))
  }

  lemma {:induction false} AdjustedPrefix(close: Option<real>, rows: seq<Action>, more: seq<Action>, from: nat, to: nat)
    requires to <= |rows|
    ensures Adjusted(close, rows + more, from, to) == Adjusted(close, rows, from, to)
  {
    if to > from {
      AdjustedPrefix(close, rows, more, from, to - 1);
    }
  }

  /** Conversions carried out in two goes. */
  lemma {:induction false} AdjustedOn(close: Option<real>, rows: seq<Action>, more: seq<Action>, from: nat, n: nat)
    requires from <= |rows| && n <= |more|
    ensures Adjusted(close, rows + more, from, |rows| + n) == Adjusted(Adjusted(close, rows, from, |rows|), more, 0, n)
  {
    if n > 0 {
      AdjustedOn(close, rows, more, from, n - 1);
      assert (rows + more)[|rows| + n - 1] == more[n - 1];
    } else {
      AdjustedPrefix(close, rows, more, from, |rows|);
    }
  }

  /** The arithmetic every corporate-action row satisfies. */
  ghost predicate SoundAction(a: Action) {
    && a.newShares == a.oldShares * a.ratio && a.newShares > 0.0
    && a.before == Times(a.oldShares, a.oldClose)
    && a.after == Times(a.newShares, a.adjustedClose)
    && a.after == a.before && a.delta == 0.0 && a.cashDelta == 0.0
  }

  lemma ConvertAdjusts(p: PositionState, t: Transition)
    requires Convert(p, t).Ok?
    ensures p.lastClose.Some? && Convert(p, t).value.row.ratio != 0.0
    ensures Convert(p, t).value.position.lastClose == Some(Over(p.lastClose.value, Convert(p, t).value.row.ratio))
  {
    hide Times, Over, IsClose;
  }

  lemma {:induction false} ConvertAllIsFaithful(p: PositionState, chain: seq<Transition>, n: nat)
    requires n <= |chain|
    requires ConvertAll(p, chain, n).Ok?
    ensures FaithfulMove(p, chain, n, ConvertAll(p, chain, n).value)
  {
    if n > 0 {
      ConvertAllIsFaithful(p, chain, n - 1);
      var m := ConvertAll(p, chain, n - 1).value;
      var r := ConvertAll(p, chain, n).value;
      ConvertKeepsMark(m.position, chain[n - 1]);
      assert chain[..n][n - 1] == chain[n - 1];
      var row := Convert(m.position, chain[n - 1]).value.row;
      assert r.rows == m.rows + [row];
      AdjustedPrefix(p.lastClose, m.rows, [row], 0, n - 1);
      ConvertAdjusts(m.position, chain[n - 1]);
      forall i | 0 <= i < n
        ensures FaithfulRow(p, chain, r.rows, i)
      {
        assert i < n - 1 ==> FaithfulRow(p, chain, m.rows, i);
      }
    } else {
      assert chain[..0] == [];
    }
  }

  // ----- the migration as a whole -----

  predicate Convertible(plan: Plan) {
    ConvertAll(plan.position, plan.chain, |plan.chain|).Ok?
  }

  function Arrived(plan: Plan): PositionState {
    if Convertible(plan) then ConvertAll(plan.position, plan.chain, |plan.chain|).value.position else plan.position
  }

  ghost function SourcesOf(plans: seq<Plan>): seq<Code> {
    seq(|plans|, i requires 0 <= i < |plans| => plans[i].source)
  }

  ghost function TargetsOf(plans: seq<Plan>): seq<Code> {
    seq(|plans|, i requires 0 <= i < |plans| => Target(plans[i]))
  }

  ghost function ArrivalsOf(plans: seq<Plan>): seq<PositionState> {
    seq(|plans|, i requires 0 <= i < |plans| => Arrived(plans[i]))
  }

  /** The first n values, each under its key. */
  ghost function Assigned(keys: seq<Code>, values: seq<PositionState>, n: nat): map<Code, PositionState>
    requires n <= |keys| == |values|
  {
    if n == 0 then map[] else Assigned(keys, values, n - 1)[keys[n - 1] := values[n - 1]]
  }

  lemma {:induction false} AssignedAt(keys: seq<Code>, values: seq<PositionState>, n: nat)
    requires n <= |keys| == |values| && NoDuplicates(keys)
    ensures forall i :: 0 <= i < n ==> keys[i] in Assigned(keys, values, n) && Assigned(keys, values, n)[keys[i]] == values[i]
    ensures Assigned(keys, values, n).Keys == set i | 0 <= i < n :: keys[i]
  {
    if n > 0 {
      AssignedAt(keys, values, n - 1);
      assert (set i | 0 <= i < n :: keys[i]) == (set i | 0 <= i < n - 1 :: keys[i]) + {keys[n - 1]};
    }
  }

  lemma TargetIsSuccessor(plan: Plan)
    requires plan.chain != []
    ensures Target(plan) in Successors(plan.chain)
  {
    assert plan.chain[|plan.chain| - 1] in plan.chain;
  }

  lemma ArrivedCode(plan: Plan)
    requires Convertible(plan)
    ensures Arrived(plan).code == Target(plan)
  {
    ConvertAllIsFaithful(plan.position, plan.chain, |plan.chain|);
    assert plan.chain[..|plan.chain|] == plan.chain;
  }

  /** No planned position arrives where another one is, or was before the migration. */
  ghost predicate FreeTargets(held: set<Code>, sources: seq<Code>, targets: seq<Code>) {
    && |sources| == |targets| && NoDuplicates(sources) && NoDuplicates(targets)
    && (forall i :: 0 <= i < |sources| ==> sources[i] in held && (targets[i] in held ==> targets[i] == sources[i]))
  }

  lemma TargetsAreFree(ts: Transitions, book: Book, date: Date, plans: seq<Plan>)
    requires Keyed(book) && PlansDescribe(ts, book, date, |book.order|, plans) && PlansDiffer(plans)
    ensures FreeTargets(book.at.Keys, SourcesOf(plans), TargetsOf(plans))
  {
    forall i | 0 <= i < |plans|
      ensures plans[i].source in book.at && (Target(plans[i]) in book.at ==> Target(plans[i]) == plans[i].source)
    {
      TargetIsSuccessor(plans[i]);
      assert IsPlanFor(ts, book, date, plans[i]);
      if Target(plans[i]) in book.at {
        assert Target(plans[i]) in Successors(plans[i].chain) * book.at.Keys;
      }
    }
  }

  ghost function Replaced(base: map<Code, PositionState>, sources: seq<Code>, targets: seq<Code>,
      values: seq<PositionState>, n: nat): map<Code, PositionState>
    requires n <= |sources| == |targets| == |values|
  {
    (base - (set i | 0 <= i < n :: sources[i])) + Assigned(targets, values, n)
  }

  lemma ReplaceInto(base: map<Code, PositionState>, gone: set<Code>, filed: map<Code, PositionState>, source: Code, target: Code, p: PositionState)
    requires source !in filed
    ensures (((base - gone) + filed) - {source})[target := p] == (base - (gone + {source})) + filed[target := p]
  {}

  lemma ReplaceOne(base: map<Code, PositionState>, sources: seq<Code>, targets: seq<Code>, values: seq<PositionState>, n: nat)
    requires 0 < n <= |sources| == |targets| == |values|
    requires FreeTargets(base.Keys, sources, targets)
    ensures (Replaced(base, sources, targets, values, n - 1) - {sources[n - 1]})[targets[n - 1] := values[n - 1]]
         == Replaced(base, sources, targets, values, n)
  {
    AssignedAt(targets, values, n - 1);
    var before, filed := (set i | 0 <= i < n - 1 :: sources[i]), Assigned(targets, values, n - 1);
    assert (set i | 0 <= i < n :: sources[i]) == before + {sources[n - 1]};
    assert sources[n - 1] !in filed;
    ReplaceInto(base, before, filed, sources[n - 1], targets[n - 1], values[n - 1]);
  }

  /** Deleting and inserting plan by plan amounts to replacing all sources by all arrivals. */
  lemma {:induction false} CarryOutEffect(book: Book, plans: seq<Plan>, n: nat)
    requires book.Valid() && n <= |plans|
    requires FreeTargets(book.at.Keys, SourcesOf(plans), TargetsOf(plans))
    requires CarryOut(book, plans, n).Ok?
    ensures forall i :: 0 <= i < n ==> Convertible(plans[i])
    ensures var m := CarryOut(book, plans, n).value;
            && m.book.Valid()
            && m.book.at == Replaced(book.at, SourcesOf(plans), TargetsOf(plans), ArrivalsOf(plans), n)
  {
    hide FreeTargets, Dict.Valid, Dict.Put, Dict.Delete;
    if n > 0 {
      CarryOutEffect(book, plans, n - 1);
      ArrivedCode(plans[n - 1]);
      ReplaceOne(book.at, SourcesOf(plans), TargetsOf(plans), ArrivalsOf(plans), n);
    }
  }

  // ----- the migration as a whole -----

  /** What the migration makes of the position held under a code. */
  function Fate(ts: Transitions, book: Book, date: Date, c: Code): Result<Moved, Fault>
    requires c in book.at
  {
    var chain :- ChainOf(ts, book.at[c].code, date);
    ConvertAll(book.at[c], chain, |chain|)
  }

  lemma FateOfUnplanned(ts: Transitions, book: Book, date: Date, plans: seq<Plan>, c: Code)
    requires Keyed(book) && c in book.at
    requires PlansCover(ts, book, date, |book.order|, plans)
    requires c !in SourcesOf(plans)
    ensures Fate(ts, book, date, c) == Ok(Moved(book.at[c], []))
  {
    assert c in book.order;
    var k :| 0 <= k < |book.order| && book.order[k] == c;
    forall i | 0 <= i < |plans|
      ensures plans[i].source != c
    {
      assert SourcesOf(plans)[i] == plans[i].source;
    }
    assert !Planned(plans, c);
  }

  lemma FateOfPlanned(ts: Transitions, book: Book, date: Date, plans: seq<Plan>, i: nat)
    requires Keyed(book) && i < |plans|
    requires PlansDescribe(ts, book, date, |book.order|, plans)
    requires Convertible(plans[i])
    ensures var c := plans[i].source;
            c in book.at && Fate(ts, book, date, c).Ok? && Fate(ts, book, date, c).value.position == Arrived(plans[i])
            && Arrived(plans[i]).code == Target(plans[i])
  {
    assert IsPlanFor(ts, book, date, plans[i]);
    ArrivedCode(plans[i]);
  }

  /** Every position has a fate, and the new book consists of exactly the moved positions, each
      under its own code. */
  ghost predicate Relocated(ts: Transitions, book: Book, date: Date, after: Book) {
    && after.Valid()
    && (forall c :: c in book.at ==>
          && Fate(ts, book, date, c).Ok?
          && var p := Fate(ts, book, date, c).value.position;
             p.code in after.at && after.at[p.code] == p)
    && (forall d :: d in after.at ==> exists c :: c in book.at && Fate(ts, book, date, c).value.position == after.at[d]
                                               && after.at[d].code == d)
  }

  ghost predicate Replacement(ts: Transitions, book: Book, date: Date, plans: seq<Plan>, after: Book) {
    && after.Valid()
    && PlansDescribe(ts, book, date, |book.order|, plans)
    && PlansCover(ts, book, date, |book.order|, plans)
    && FreeTargets(book.at.Keys, SourcesOf(plans), TargetsOf(plans))
    && (forall i :: 0 <= i < |plans| ==> Convertible(plans[i]))
    && after.at == Replaced(book.at, SourcesOf(plans), TargetsOf(plans), ArrivalsOf(plans), |plans|)
  }

  lemma MigrationReplaces(ts: Transitions, book: Book, date: Date) returns (plans: seq<Plan>)
    requires Keyed(book) && ApplyEffective(ts, book, date).Ok?
    ensures PlansFor(ts, book, date, |book.order|) == Ok(plans) && PlansDiffer(plans)
    ensures Replacement(ts, book, date, plans, ApplyEffective(ts, book, date).value.book)
  {
    hide PlansDescribe, PlansDiffer, PlansCover, FreeTargets, Replaced, Convertible;
    plans := PlansFor(ts, book, date, |book.order|).value;
    PlansAreGood(ts, book, date, |book.order|);
    TargetsAreFree(ts, book, date, plans);
    CarryOutEffect(book, plans, |plans|);
  }

  lemma MovesUnderItsCode(ts: Transitions, book: Book, date: Date, plans: seq<Plan>, after: Book, c: Code)
    requires Keyed(book) && Replacement(ts, book, date, plans, after) && c in book.at
    ensures Fate(ts, book, date, c).Ok?
    ensures var p := Fate(ts, book, date, c).value.position; p.code in after.at && after.at[p.code] == p
  {
    hide ConvertAll, ChainOf, Dict.Valid;
    if i :| 0 <= i < |plans| && plans[i].source == c {
      var targets := TargetsOf(plans);
      AssignedAt(targets, ArrivalsOf(plans), |plans|);
      FateOfPlanned(ts, book, date, plans, i);
      assert targets[i] in after.at && after.at[targets[i]] == ArrivalsOf(plans)[i];
    } else {
      StaysUnderItsCode(ts, book, date, plans, after, c);
    }
  }

  lemma StaysUnderItsCode(ts: Transitions, book: Book, date: Date, plans: seq<Plan>, after: Book, c: Code)
    requires Keyed(book) && Replacement(ts, book, date, plans, after) && c in book.at
    requires forall i :: 0 <= i < |plans| ==> plans[i].source != c
    ensures Fate(ts, book, date, c).Ok?
    ensures Fate(ts, book, date, c).value.position.code == c && c in after.at && after.at[c] == Fate(ts, book, date, c).value.position
  {
    hide ConvertAll, ChainOf, Dict.Valid;
    var targets := TargetsOf(plans);
    AssignedAt(targets, ArrivalsOf(plans), |plans|);
    FateOfUnplanned(ts, book, date, plans, c);
    forall i | 0 <= i < |targets|
      ensures targets[i] != c
    {
      assert SourcesOf(plans)[i] == plans[i].source;
    }
    assert c !in (set i | 0 <= i < |plans| :: SourcesOf(plans)[i]);
  }

  lemma ComesFromTheBook(ts: Transitions, book: Book, date: Date, plans: seq<Plan>, after: Book, d: Code)
    returns (c: Code)
    requires Keyed(book) && Replacement(ts, book, date, plans, after) && d in after.at
    ensures c in book.at && Fate(ts, book, date, c).Ok?
    ensures Fate(ts, book, date, c).value.position == after.at[d] && after.at[d].code == d
  {
    hide ConvertAll, ChainOf, Dict.Valid;
    var targets := TargetsOf(plans);
    AssignedAt(targets, ArrivalsOf(plans), |plans|);
    if i :| 0 <= i < |plans| && targets[i] == d {
      FateOfPlanned(ts, book, date, plans, i);
      assert targets[i] in after.at && after.at[targets[i]] == ArrivalsOf(plans)[i];
      c := plans[i].source;
    } else {
      assert d !in Assigned(targets, ArrivalsOf(plans), |plans|);
      c := d;
      forall i | 0 <= i < |plans|
        ensures plans[i].source != c
      {
        assert SourcesOf(plans)[i] == plans[i].source;
      }
      FateOfUnplanned(ts, book, date, plans, c);
    }
  }

  lemma MigrationRelocates(ts: Transitions, book: Book, date: Date)
    requires Keyed(book) && ApplyEffective(ts, book, date).Ok?
    ensures Relocated(ts, book, date, ApplyEffective(ts, book, date).value.book)
  {
    hide Replacement, Fate, ApplyEffective, Dict.Valid, Keyed;
    var after := ApplyEffective(ts, book, date).value.book;
    var plans := MigrationReplaces(ts, book, date);
    assert after.Valid() by { RelocationIsValid(ts, book, date, plans, after); }
    forall c | c in book.at
      ensures Fate(ts, book, date, c).Ok?
      ensures var p := Fate(ts, book, date, c).value.position; p.code in after.at && after.at[p.code] == p
    {
      MovesUnderItsCode(ts, book, date, plans, after, c);
    }
    forall d | d in after.at
      ensures exists c :: c in book.at && Fate(ts, book, date, c).value.position == after.at[d] && after.at[d].code == d
    {
      var c := ComesFromTheBook(ts, book, date, plans, after, d);
    }
  }

  lemma RelocationIsValid(ts: Transitions, book: Book, date: Date, plans: seq<Plan>, after: Book)
    requires Replacement(ts, book, date, plans, after)
    ensures after.Valid()
  {}

  // ----- all or nothing -----

  lemma PathSupported(ts: Transitions, code: Code, date: Date, chain: seq<Transition>, previous: Option<Date>)
    requires MaximalPath(ts, code, date, chain, previous)
    ensures forall t :: t in chain ==> Classify(t) == Supported
    decreases |chain|
  {
    if chain != [] {
      PathSupported(ts, chain[0].successor, date, chain[1..], Some(chain[0].effective));
      assert chain == [chain[0]] + chain[1..];
    }
  }

  lemma {:induction false} ConvertAllNeedsMark(p: PositionState, chain: seq<Transition>, n: nat)
    requires 0 < n <= |chain|
    requires ConvertAll(p, chain, n).Ok?
    ensures HasPositiveMark(p)
  {
    if n > 1 {
      ConvertAllNeedsMark(p, chain, n - 1);
    } else {
      assert ConvertAll(p, chain, 0) == Ok(Moved(p, []));
    }
  }

  lemma PlanSucceedsIff(ts: Transitions, book: Book, date: Date, plan: Plan)
    requires Keyed(book) && IsPlanFor(ts, book, date, plan)
    ensures Due(ts, plan.source, date)
    ensures Convertible(plan) <==> HasPositiveMark(plan.position)
  {
    WalkIsMaximal(ts, plan.source, date, {}, None);
    PathSupported(ts, plan.source, date, plan.chain, None);
    if HasPositiveMark(plan.position) {
      ConvertAllSucceeds(plan.position, plan.chain, |plan.chain|);
    } else if Convertible(plan) {
      ConvertAllNeedsMark(plan.position, plan.chain, |plan.chain|);
    }
  }

  lemma {:induction false} CarryOutSucceedsIff(book: Book, plans: seq<Plan>, n: nat)
    requires n <= |plans|
    ensures CarryOut(book, plans, n).Ok? <==> forall i :: 0 <= i < n ==> Convertible(plans[i])
  {
    hide ConvertAll, Relocate;
    if n > 0 {
      CarryOutSucceedsIff(book, plans, n - 1);
    }
  }

  /** Once every due chain has been planned, the migration can only fail on a due position that
      has no positive mark, and does fail on one. With positive marks it is all or nothing. */
  lemma MutationSucceedsIff(ts: Transitions, book: Book, date: Date)
    requires Keyed(book) && PlansFor(ts, book, date, |book.order|).Ok?
    ensures ApplyEffective(ts, book, date).Ok? <==>
            forall c :: c in book.at && Due(ts, c, date) ==> HasPositiveMark(book.at[c])
  {
    hide ConvertAll, Dict.Valid, HasPositiveMark, CarryOut;
    var plans := PlansFor(ts, book, date, |book.order|).value;
    PlansAreGood(ts, book, date, |book.order|);
    CarryOutSucceedsIff(book, plans, |plans|);
    forall i | 0 <= i < |plans|
      ensures plans[i].source in book.at && plans[i].position == book.at[plans[i].source]
      ensures Due(ts, plans[i].source, date)
      ensures Convertible(plans[i]) <==> HasPositiveMark(plans[i].position)
    {
      PlanSucceedsIff(ts, book, date, plans[i]);
    }
    forall c | c in book.at && Due(ts, c, date)
      ensures exists i :: 0 <= i < |plans| && plans[i].source == c
    {
      DueIsPlanned(ts, book, date, plans, c);
    }
  }

  lemma DueIsPlanned(ts: Transitions, book: Book, date: Date, plans: seq<Plan>, c: Code)
    requires Keyed(book) && c in book.at && Due(ts, c, date)
    requires PlansCover(ts, book, date, |book.order|, plans)
    ensures exists i :: 0 <= i < |plans| && plans[i].source == c
  {
    assert c in book.order;
    var k :| 0 <= k < |book.order| && book.order[k] == c;
    assert ChainOf(ts, c, date).value != [];
    var p :| p in plans && p.source == c;
  }

  // ----- the ledger rows of a migration -----

  ghost predicate DistinctIds(book: Book) {
    forall c, d :: c in book.at && d in book.at && book.at[c].id == book.at[d].id ==> c == d
  }

  /** A row is backed by the reviewed transition of its predecessor. */
  predicate Evidenced(ts: Transitions, a: Action) {
    && a.predecessor in ts
    && var t := ts[a.predecessor];
       a.successor == t.successor && a.effective == t.effective && t.ratio == Some(a.ratio)
       && a.evidence == t.evidence && Classify(t) == Supported
  }

  /** Each transition of a path leaves the code the one before arrived at, later than it. */
  ghost predicate Linked(ts: Transitions, code: Code, date: Date, chain: seq<Transition>, previous: Option<Date>, i: nat)
    requires i < |chain|
  {
    && chain[i].predecessor == (if i == 0 then code else chain[i - 1].successor)
    && chain[i].predecessor in ts && ts[chain[i].predecessor] == chain[i]
    && chain[i].effective <= date
    && Classify(chain[i]) == Supported
    && (i == 0 && previous.Some? ==> previous.value < chain[0].effective)
    && (i > 0 ==> chain[i - 1].effective < chain[i].effective)
  }

  lemma {:induction false} PathIsLinked(ts: Transitions, code: Code, date: Date, chain: seq<Transition>, previous: Option<Date>, i: nat)
    requires Indexed(ts) && MaximalPath(ts, code, date, chain, previous) && i < |chain|
    ensures Linked(ts, code, date, chain, previous, i)
    decreases i
  {
    if i > 0 {
      PathIsLinked(ts, chain[0].successor, date, chain[1..], Some(chain[0].effective), i - 1);
    }
  }

  lemma {:induction false} PathEndsUndue(ts: Transitions, code: Code, date: Date, chain: seq<Transition>, previous: Option<Date>)
    requires MaximalPath(ts, code, date, chain, previous)
    ensures !Due(ts, EndOf(code, chain), date)
    decreases |chain|
  {
    if chain != [] {
      EndOfTail(code, chain);
      PathEndsUndue(ts, chain[0].successor, date, chain[1..], Some(chain[0].effective));
    }
  }

  /** A chain never leads back to the code it started from. */
  lemma ChainAvoidsStart(ts: Transitions, c: Code, date: Date)
    requires ChainOf(ts, c, date).Ok?
    ensures c !in Successors(ChainOf(ts, c, date).value)
  {
    if Due(ts, c, date) {
      var t := ts[c];
      assert {} + {c} == {c};
      var rest := Walk(ts, t.successor, date, {c}, Some(t.effective)).value;
      WalkIsMaximal(ts, t.successor, date, {c}, Some(t.effective));
      assert Successors([t] + rest) == {t.successor} + Successors(rest);
    }
  }

  /** The fate of a held position: a faithful move along its maximal due chain. */
  lemma FateIsFaithful(ts: Transitions, book: Book, date: Date, c: Code)
    requires Keyed(book) && c in book.at && Fate(ts, book, date, c).Ok?
    ensures ChainOf(ts, c, date).Ok?
    ensures var chain := ChainOf(ts, c, date).value;
            && FaithfulMove(book.at[c], chain, |chain|, Fate(ts, book, date, c).value)
            && MaximalPath(ts, c, date, chain, None)
            && Fate(ts, book, date, c).value.position.code == EndOf(c, chain)
            && !Due(ts, EndOf(c, chain), date)
            && c !in Successors(chain)
  {
    hide ConvertAll, ChainOf;
    ChainAvoidsStart(ts, c, date);
    var chain := ChainOf(ts, c, date).value;
    ConvertAllIsFaithful(book.at[c], chain, |chain|);
    assert chain[..|chain|] == chain;
    ChainIsMaximal(ts, c, date);
    PathEndsUndue(ts, c, date, chain, None);
  }

  lemma ChainIsMaximal(ts: Transitions, c: Code, date: Date)
    requires ChainOf(ts, c, date).Ok?
    ensures MaximalPath(ts, c, date, ChainOf(ts, c, date).value, None)
  {
    WalkIsMaximal(ts, c, date, {}, None);
  }

  lemma MoveRowsAreOwn(p: PositionState, chain: seq<Transition>, m: Moved)
    requires FaithfulMove(p, chain, |chain|, m)
    ensures forall r :: r in m.rows ==> r.id == p.id && SoundAction(r)
    ensures Own(m.rows, ActionId, p.id) == m.rows
    ensures forall q :: q != p.id ==> Own(m.rows, ActionId, q) == []
  {
    forall r | r in m.rows
      ensures r.id == p.id && SoundAction(r)
    {
      var i :| 0 <= i < |m.rows| && m.rows[i] == r;
      assert FaithfulRow(p, chain, m.rows, i);
    }
    OwnAll(m.rows, ActionId, p.id);
    forall q | q != p.id
      ensures Own(m.rows, ActionId, q) == []
    {
      OwnNone(m.rows, ActionId, q);
    }
  }

  function MovedRows(plan: Plan): seq<Action> {
    if Convertible(plan) then ConvertAll(plan.position, plan.chain, |plan.chain|).value.rows else []
  }

  function RowsUpTo(plans: seq<Plan>, n: nat): seq<Action>
    requires n <= |plans|
  {
    if n == 0 then [] else RowsUpTo(plans, n - 1) + MovedRows(plans[n - 1])
  }

  lemma {:induction false} CarriedRows(book: Book, plans: seq<Plan>, n: nat)
    requires n <= |plans| && CarryOut(book, plans, n).Ok?
    ensures CarryOut(book, plans, n).value.rows == RowsUpTo(plans, n)
  {
    hide ConvertAll, Relocate;
    if n > 0 {
      CarriedRows(book, plans, n - 1);
    }
  }

  lemma OwnMovedRows(plan: Plan, q: PositionId)
    ensures Own(MovedRows(plan), ActionId, q) == if q == plan.position.id then MovedRows(plan) else []
  {
    hide ConvertAll;
    if Convertible(plan) {
      ConvertAllIsFaithful(plan.position, plan.chain, |plan.chain|);
      MoveRowsAreOwn(plan.position, plan.chain, ConvertAll(plan.position, plan.chain, |plan.chain|).value);
    }
  }

  ghost predicate IdsDiffer(plans: seq<Plan>) {
    forall i, j :: 0 <= i < j < |plans| ==> plans[i].position.id != plans[j].position.id
  }

  lemma {:induction false} RowsOfNobody(plans: seq<Plan>, n: nat, q: PositionId)
    requires n <= |plans| && forall i :: 0 <= i < n ==> plans[i].position.id != q
    ensures Own(RowsUpTo(plans, n), ActionId, q) == []
  {
    hide MovedRows;
    if n > 0 {
      RowsOfNobody(plans, n - 1, q);
      OwnMovedRows(plans[n - 1], q);
      OwnConcat(RowsUpTo(plans, n - 1), MovedRows(plans[n - 1]), ActionId, q);
    }
  }

  lemma {:induction false} RowsOfPlan(plans: seq<Plan>, n: nat, i: nat)
    requires i < n <= |plans| && IdsDiffer(plans)
    ensures Own(RowsUpTo(plans, n), ActionId, plans[i].position.id) == MovedRows(plans[i])
  {
    hide MovedRows;
    var q := plans[i].position.id;
    OwnMovedRows(plans[n - 1], q);
    OwnConcat(RowsUpTo(plans, n - 1), MovedRows(plans[n - 1]), ActionId, q);
    if i < n - 1 {
      RowsOfPlan(plans, n - 1, i);
    } else {
      RowsOfNobody(plans, n - 1, q);
    }
  }

  lemma {:induction false} RowOfSomePlan(plans: seq<Plan>, n: nat, r: Action) returns (i: nat)
    requires n <= |plans| && r in RowsUpTo(plans, n)
    ensures i < n && r in MovedRows(plans[i])
  {
    hide MovedRows;
    if r in MovedRows(plans[n - 1]) {
      i := n - 1;
    } else {
      i := RowOfSomePlan(plans, n - 1, r);
    }
  }

  /** The plans of a migration that went through, with what is known of them. */
  lemma CarriedPlans(ts: Transitions, book: Book, date: Date) returns (plans: seq<Plan>)
    requires Keyed(book) && DistinctIds(book) && ApplyEffective(ts, book, date).Ok?
    ensures PlansDescribe(ts, book, date, |book.order|, plans) && PlansCover(ts, book, date, |book.order|, plans)
    ensures forall i :: 0 <= i < |plans| ==> Convertible(plans[i])
    ensures IdsDiffer(plans)
    ensures ApplyEffective(ts, book, date).value.rows == RowsUpTo(plans, |plans|)
  {
    hide CarryOut, ChainOf, ConvertAll, Replaced, FreeTargets, PlansCover, Dict.Valid;
    plans := MigrationReplaces(ts, book, date);
    CarriedRows(book, plans, |plans|);
    forall i | 0 <= i < |plans|
      ensures plans[i].source in book.at && plans[i].position == book.at[plans[i].source]
    {
      assert IsPlanFor(ts, book, date, plans[i]);
    }
  }

  lemma PlannedFate(ts: Transitions, book: Book, date: Date, plan: Plan)
    requires Keyed(book) && IsPlanFor(ts, book, date, plan) && Convertible(plan)
    ensures Fate(ts, book, date, plan.source).Ok? && Fate(ts, book, date, plan.source).value.rows == MovedRows(plan)
  {}

  lemma RowsOfHeld(ts: Transitions, book: Book, date: Date, c: Code)
    requires Keyed(book) && DistinctIds(book) && ApplyEffective(ts, book, date).Ok? && c in book.at
    ensures Fate(ts, book, date, c).Ok?
    ensures Own(ApplyEffective(ts, book, date).value.rows, ActionId, book.at[c].id) == Fate(ts, book, date, c).value.rows
  {
    hide CarryOut, ChainOf, ConvertAll, Convertible, PlansCover, Dict.Valid;
    var plans := CarriedPlans(ts, book, date);
    if i :| 0 <= i < |plans| && plans[i].source == c {
      RowsOfPlan(plans, |plans|, i);
      PlannedFate(ts, book, date, plans[i]);
      assert IsPlanFor(ts, book, date, plans[i]);
    } else {
      forall i | 0 <= i < |plans|
        ensures plans[i].position.id != book.at[c].id && plans[i].source != c
      {
        assert IsPlanFor(ts, book, date, plans[i]);
      }
      RowsOfNobody(plans, |plans|, book.at[c].id);
      FateOfUnplanned(ts, book, date, plans, c);
    }
  }

  lemma RowsOfStranger(ts: Transitions, book: Book, date: Date, q: PositionId)
    requires Keyed(book) && DistinctIds(book) && ApplyEffective(ts, book, date).Ok?
    requires forall c :: c in book.at ==> book.at[c].id != q
    ensures Own(ApplyEffective(ts, book, date).value.rows, ActionId, q) == []
  {
    hide CarryOut, ChainOf, ConvertAll, Convertible, PlansCover, Dict.Valid;
    var plans := CarriedPlans(ts, book, date);
    forall i | 0 <= i < |plans|
      ensures plans[i].position.id != q
    {
      assert IsPlanFor(ts, book, date, plans[i]);
    }
    RowsOfNobody(plans, |plans|, q);
  }

  lemma RowIsBacked(ts: Transitions, book: Book, date: Date, r: Action)
    requires Indexed(ts) && Keyed(book) && DistinctIds(book) && ApplyEffective(ts, book, date).Ok?
    requires r in ApplyEffective(ts, book, date).value.rows
    ensures SoundAction(r) && Evidenced(ts, r) && r.effective <= date
  {
    hide CarryOut, ChainOf, ConvertAll, Dict.Valid, SoundAction;
    var plans := CarriedPlans(ts, book, date);
    var i := RowOfSomePlan(plans, |plans|, r);
    var plan := plans[i];
    assert IsPlanFor(ts, book, date, plan);
    var m := ConvertAll(plan.position, plan.chain, |plan.chain|).value;
    ConvertAllIsFaithful(plan.position, plan.chain, |plan.chain|);
    var k :| 0 <= k < |m.rows| && m.rows[k] == r;
    assert FaithfulRow(plan.position, plan.chain, m.rows, k);
    ChainIsMaximal(ts, plan.source, date);
    PathIsLinked(ts, plan.source, date, plan.chain, None, k);
  }

  /** The rows a migration appends: for each position those of its own fate, nothing for anyone
      else, and every row sound and backed by a supported transition already in force. */
  lemma MigrationRows(ts: Transitions, book: Book, date: Date)
    requires Indexed(ts) && Keyed(book) && DistinctIds(book) && ApplyEffective(ts, book, date).Ok?
    ensures forall c :: c in book.at ==>
              Fate(ts, book, date, c).Ok?
              && Own(ApplyEffective(ts, book, date).value.rows, ActionId, book.at[c].id) == Fate(ts, book, date, c).value.rows
    ensures forall q :: (forall c :: c in book.at ==> book.at[c].id != q) ==>
              Own(ApplyEffective(ts, book, date).value.rows, ActionId, q) == []
    ensures forall r :: r in ApplyEffective(ts, book, date).value.rows ==>
              SoundAction(r) && Evidenced(ts, r) && r.effective <= date
  {
    var rows := ApplyEffective(ts, book, date).value.rows;
    var plans := MigrationReplaces(ts, book, date);
    forall c | c in book.at
      ensures Fate(ts, book, date, c).Ok?
      ensures Own(rows, ActionId, book.at[c].id) == Fate(ts, book, date, c).value.rows
    {
      RowsOfHeld(ts, book, date, c);
    }
    forall q | forall c :: c in book.at ==> book.at[c].id != q
      ensures Own(rows, ActionId, q) == []
    {
      RowsOfStranger(ts, book, date, q);
    }
    forall r | r in rows
      ensures SoundAction(r) && Evidenced(ts, r) && r.effective <= date
    {
      RowIsBacked(ts, book, date, r);
    }
  }
}
