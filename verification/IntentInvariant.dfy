/** Every selected signal leaves exactly one intent, in rank order, and the intents recorded as
    filled are exactly the positions that were opened. */
module IntentInvariant {
  import opened Basics
  import opened Ledgers
  import opened Simulation
  import opened Auditor

  type SlipBook = Dict<Code, Intent>

  // ----- the slips of one session -----

  /** The slips list the selected codes in rank order. */
  ghost predicate SlipsList(env: Env, i: nat, d: SlipBook)
    requires i < |env.calendar|
  {
    var codes := env.Selected(env.calendar[i]);
    && NoDuplicates(codes)
    && d.order == codes
    && (forall c :: c in d.at <==> c in codes)
    && (forall k :: 0 <= k < |codes| ==> SlotOf(d.at[codes[k]]) == DaySlots(env, i)[k])
  }

  lemma PutNew(d: SlipBook, c: Code, x: Intent)
    requires c !in d.at
    ensures d.Put(c, x) == Dict(d.order + [c], d.at[c := x])
  {}

  ghost predicate FirstSlips(env: Env, st: State, i: nat, codes: seq<Code>, n: nat, d: SlipBook)
    requires i < |env.calendar| && n <= |codes|
  {
    && d.order == codes[..n]
    && (forall c :: c in d.at <==> c in codes[..n])
    && (forall k :: 0 <= k < n ==> d.at[codes[k]] == Slip(env, st, i, codes[k], k + 1))
  }

  lemma FirstSlipsGrow(env: Env, st: State, i: nat, codes: seq<Code>, n: nat, d: SlipBook)
    requires i < |env.calendar| && n < |codes| && NoDuplicates(codes)
    requires FirstSlips(env, st, i, codes, n, d)
    ensures FirstSlips(env, st, i, codes, n + 1, Dict(d.order + [codes[n]], d.at[codes[n] := Slip(env, st, i, codes[n], n + 1)]))
    ensures codes[n] !in d.at
  {
    hide Slip;
    assert codes[..n + 1] == codes[..n] + [codes[n]];
    assert codes[n] !in codes[..n];
  }

  lemma NoSlipsYet(env: Env, st: State, i: nat, codes: seq<Code>)
    requires i < |env.calendar|
    ensures FirstSlips(env, st, i, codes, 0, Dict([], map[]))
  {
    assert codes[..0] == [];
  }

  lemma {:induction false} SlipsUpToList(env: Env, st: State, i: nat, codes: seq<Code>, n: nat)
    requires i < |env.calendar| && n <= |codes| && NoDuplicates(codes)
    ensures FirstSlips(env, st, i, codes, n, SlipsUpTo(env, st, i, codes, n))
  {
    hide Slip, Dict.Put, FirstSlips, NoDuplicates;
    if n > 0 {
      SlipsUpToList(env, st, i, codes, n - 1);
      var before := SlipsUpTo(env, st, i, codes, n - 1);
      FirstSlipsGrow(env, st, i, codes, n - 1, before);
      PutNew(before, codes[n - 1], Slip(env, st, i, codes[n - 1], n));
    } else {
      NoSlipsYet(env, st, i, codes);
    }
  }

  lemma NotedListsSlips(env: Env, st: State, i: nat)
    requires i < |env.calendar| && NoDuplicates(env.Selected(env.calendar[i]))
    ensures SlipsList(env, i, Noted(env, st, i).slips)
    ensures forall c :: c in env.Selected(env.calendar[i]) ==>
              Noted(env, st, i).slips.at[c].outcome != OutcomeFilled
  {
    hide SlipsUpTo;
    var codes := env.Selected(env.calendar[i]);
    SlipsUpToList(env, st, i, codes, |codes|);
    assert codes[..|codes|] == codes;
    forall c | c in codes
      ensures Noted(env, st, i).slips.at[c].outcome != OutcomeFilled
    {
      var k :| 0 <= k < |codes| && codes[k] == c;
    }
  }

  lemma SettledListsSlips(env: Env, i: nat, d: SlipBook, code: Code, outcome: Outcome, id: Option<PositionId>)
    requires i < |env.calendar| && SlipsList(env, i, d)
    ensures SlipsList(env, i, Settled(d, code, outcome, id))
  {
    hide DaySlots;
  }

  lemma {:induction false} ListedSlots(env: Env, i: nat, d: SlipBook, n: nat)
    requires i < |env.calendar| && SlipsList(env, i, d) && n <= |d.order|
    ensures SlotsOf(Slips(d, n)) == DaySlots(env, i)[..n]
  {
    if n > 0 {
      ListedSlots(env, i, d, n - 1);
      assert d.order[n - 1] in d.order;
      assert Slips(d, n) == Slips(d, n - 1) + [d.at[d.order[n - 1]]];
    }
  }

  // ----- filled intents -----

  function FilledIds(d: SlipBook, n: nat): seq<Option<PositionId>>
    requires n <= |d.order|
  {
    IntentIds(Slips(d, n))
  }

  lemma {:induction false} IntentIdsConcat(a: seq<Intent>, b: seq<Intent>)
    ensures IntentIds(a + b) == IntentIds(a) + IntentIds(b)
  {
    if b == [] {
      assert a + b == a;
    } else {
      assert a + b == (a + b[..|b| - 1]) + [b[|b| - 1]];
      IntentIdsConcat(a, b[..|b| - 1]);
    }
  }

  lemma FilledIdsStep(d: SlipBook, n: nat)
    requires 0 < n <= |d.order| && d.order[n - 1] in d.at
    ensures FilledIds(d, n) == FilledIds(d, n - 1) + if IsFilledIntent(d.at[d.order[n - 1]]) then [d.at[d.order[n - 1]].id] else []
  {
    IntentIdsConcat(Slips(d, n - 1), [d.at[d.order[n - 1]]]);
  }

  lemma NothingFilledYet(d: SlipBook)
    ensures FilledIds(d, 0) == []
  {}

  lemma OrderStep(d: SlipBook, n: nat)
    requires d.Valid() && 0 < n <= |d.order|
    ensures d.order[..n] == d.order[..n - 1] + [d.order[n - 1]] && d.order[n - 1] !in d.order[..n - 1]
  {}

  /** Settling an intent that was not filled adds its id exactly if it is filled now. */
  lemma {:induction false} SettleFills(d: SlipBook, code: Code, outcome: Outcome, id: Option<PositionId>, n: nat)
    requires d.Valid() && n <= |d.order| && code in d.at && d.at[code].outcome != OutcomeFilled
    ensures Settled(d, code, outcome, id).order == d.order
    ensures multiset(FilledIds(Settled(d, code, outcome, id), n))
         == multiset(FilledIds(d, n)) + (if outcome == OutcomeFilled && code in d.order[..n] then multiset{id} else multiset{})
  {
    hide FilledIds;
    var e := Settled(d, code, outcome, id);
    if n > 0 {
      SettleFills(d, code, outcome, id, n - 1);
      assert d.order[n - 1] in d.order;
      FilledIdsStep(d, n);
      FilledIdsStep(e, n);
      OrderStep(d, n);
    } else {
      NothingFilledYet(d);
      NothingFilledYet(e);
    }
  }

  /** Filled intents, recorded and pending, match the openings of the trade log. */
  ghost predicate FillsMatch(intents: seq<Intent>, d: SlipBook, trades: seq<Trade>) {
    multiset(IntentIds(intents)) + multiset(FilledIds(d, |d.order|)) == multiset(OpeningIds(trades))
  }

  lemma {:induction false} NothingFilled(d: SlipBook, n: nat)
    requires n <= |d.order| && forall c :: c in d.at ==> d.at[c].outcome != OutcomeFilled
    ensures FilledIds(d, n) == []
  {
    if n > 0 {
      NothingFilled(d, n - 1);
      if d.order[n - 1] in d.at {
        FilledIdsStep(d, n);
        assert FilledIds(d, n - 1) + [] == [];
      } else {
        assert Slips(d, n) == Slips(d, n - 1) + [] == Slips(d, n - 1);
      }
    }
  }

  // ----- between sessions -----

  /** The intents of all sessions before calendar index n. */
  ghost predicate IntentsOk(env: Env, intents: seq<Intent>, trades: seq<Trade>, n: nat)
    requires n <= |env.calendar|
  {
    && SlotsOf(intents) == ExpectedSlots(env, n)
    && multiset(IntentIds(intents)) == multiset(OpeningIds(trades))
  }

  lemma SlotsConcat(a: seq<Intent>, b: seq<Intent>)
    ensures SlotsOf(a + b) == SlotsOf(a) + SlotsOf(b)
  {}

  lemma RecordedSlots(env: Env, i: nat, d: SlipBook)
    requires i < |env.calendar| && SlipsList(env, i, d)
    ensures SlotsOf(Slips(d, |d.order|)) == DaySlots(env, i)
  {
    ListedSlots(env, i, d, |d.order|);
    SlotCount(env, i);
    assert DaySlots(env, i)[..|d.order|] == DaySlots(env, i);
  }

  lemma RecordingKeepsIntents(env: Env, st: State, i: nat)
    requires i < |env.calendar| && SlipsList(env, i, st.slips)
    requires SlotsOf(st.intents) == ExpectedSlots(env, i)
    requires FillsMatch(st.intents, st.slips, st.trades)
    ensures IntentsOk(env, Recorded(st).intents, st.trades, i + 1)
  {
    hide DaySlots, SlotsOf, IntentIds, Slips, OpeningIds, SlipsList;
    var n := |st.slips.order|;
    RecordedSlots(env, i, st.slips);
    IntentIdsConcat(st.intents, Slips(st.slips, n));
    SlotsConcat(st.intents, Slips(st.slips, n));
  }

  lemma SlotCount(env: Env, i: nat)
    requires i < |env.calendar|
    ensures |DaySlots(env, i)| == |env.Selected(env.calendar[i])|
  {}

  /** Sessions without selected codes expect nothing. */
  lemma {:induction false} NoSlotsExpected(env: Env, from: nat, n: nat)
    requires from <= n <= |env.calendar|
    requires forall k :: from <= k < n ==> env.calendar[k] !in env.entries
    ensures ExpectedSlots(env, n) == ExpectedSlots(env, from)
  {
    if n > from {
      NoSlotsExpected(env, from, n - 1);
      assert env.calendar[n - 1] !in env.entries;
      assert DaySlots(env, n - 1) == [];
    }
  }
}
