/** transition_ledger (scripts/_storage_placement_transition.py) as it runs. */
module TransitionLedger {
  import opened Text
  import opened Ledger
  import LedgerFields

  /** The budget that is left after these entries have drawn from it. */
  ghost predicate Left(left: multiset<Key>, budget: seq<Key>, es: seq<Entry>) {
    Draws(es, budget) && left == multiset(budget) - Drawn(es)
  }

  ghost predicate AllOk(es: seq<Entry>) { forall e | e in es :: EntryOk(e) }

  /** One charge, drawn from the budget that is left. */
  method DrawCharge(step: Step, charge: Charge, left: multiset<Key>) returns (left': multiset<Key>, fault: Option<Fault>)
    ensures var e := Entry(RoleOf(step.kind), step.observed, charge);
      && (fault.None? <==> left[KeyOf(e)] > 0 && EntryOk(e))
      && (fault.None? ==> left' == left - multiset{KeyOf(e)})
  {
    var role := RoleOf(step.kind);
    var key := Key(if role.Some? then role.value else "", charge.planned);
    if role.None? || left[key] == 0 {
      return left, Some(OverBudget);
    }
    left' := left - multiset{key};
    if !Partitioned(charge) {
      return left', Some(BadPartition);
    }
    if charge.acquired != 0 && !(step.observed && charge.outstanding == 0) {
      return left', Some(NotReflected);
    }
    fault := None;
  }

  /** How far the loop over one step's charges has come: `seen` are the entries it
      has drawn. */
  ghost predicate InStep(step: Step, backing: string, budget: seq<Key>, done: seq<Entry>, seen: seq<Entry>, i: nat,
      left: multiset<Key>, acquired: int)
  {
    && i <= |step.charges|
    && EntriesOf(step, step.charges, backing) == seen + EntriesOf(step, step.charges[i..], backing)
    && Left(left, budget, done + seen) && AllOk(seen) && acquired == Acquired(seen)
  }

  /** The charges of one step, drawn from the budget that is left. */
  method DrawStep(step: Step, backing: string, left: multiset<Key>, ghost budget: seq<Key>, ghost done: seq<Entry>)
    returns (left': multiset<Key>, acquired: int, fault: Option<Fault>)
    requires Left(left, budget, done)
    ensures fault.None? <==>
      Draws(done + EntriesOf(step, step.charges, backing), budget) && AllOk(EntriesOf(step, step.charges, backing))
    ensures fault.None? ==> Left(left', budget, done + EntriesOf(step, step.charges, backing))
    ensures fault.None? ==> acquired == Acquired(EntriesOf(step, step.charges, backing))
  {
    hide InStep;
    hide Left;
    hide AllOk;
    hide Draws;
    hide Acquired;
    hide EntriesOf;
    left', acquired, fault := left, 0, None;
    ghost var seen: seq<Entry> := [];
    StartStep(step, backing, budget, done, left);
    var i := 0;
    while i < |step.charges|
      invariant 0 <= i <= |step.charges| && fault.None?
      invariant InStep(step, backing, budget, done, seen, i, left', acquired)
    {
      NextCharge(step, backing, budget, done, seen, i, left', acquired);
      if step.charges[i].backing == backing {
        var after, why := DrawCharge(step, step.charges[i], left');
        if why.Some? {
          fault := why;
          return;
        }
        left', acquired := after, acquired + step.charges[i].acquired;
        seen := seen + [Entry(RoleOf(step.kind), step.observed, step.charges[i])];
      }
      i := i + 1;
    }
    EndStep(step, backing, budget, done, seen, left', acquired);
  }

  lemma StartStep(step: Step, backing: string, budget: seq<Key>, done: seq<Entry>, left: multiset<Key>)
    requires Left(left, budget, done)
    ensures InStep(step, backing, budget, done, [], 0, left, 0)
  {
    hide Left;
    hide EntriesOf;
    assert step.charges[0..] == step.charges;
    assert done + [] == done;
  }

  lemma EndStep(step: Step, backing: string, budget: seq<Key>, done: seq<Entry>, seen: seq<Entry>, left: multiset<Key>, acquired: int)
    requires InStep(step, backing, budget, done, seen, |step.charges|, left, acquired)
    ensures seen == EntriesOf(step, step.charges, backing)
    ensures Left(left, budget, done + seen) && Draws(done + seen, budget) && AllOk(seen) && acquired == Acquired(seen)
  {
    assert EntriesOf(step, step.charges[|step.charges|..], backing) == [];
    hide Drawn;
    hide Acquired;
  }

  /** What one charge does to the loop. */
  lemma NextCharge(step: Step, backing: string, budget: seq<Key>, done: seq<Entry>, seen: seq<Entry>, i: nat,
      left: multiset<Key>, acquired: int)
    requires i < |step.charges| && InStep(step, backing, budget, done, seen, i, left, acquired)
    ensures step.charges[i].backing != backing ==> InStep(step, backing, budget, done, seen, i + 1, left, acquired)
    ensures step.charges[i].backing == backing ==>
      var e := Entry(RoleOf(step.kind), step.observed, step.charges[i]);
      var all := EntriesOf(step, step.charges, backing);
      && (left[KeyOf(e)] > 0 && EntryOk(e) ==>
            InStep(step, backing, budget, done, seen + [e], i + 1, left - multiset{KeyOf(e)}, acquired + e.charge.acquired))
      && (!(left[KeyOf(e)] > 0 && EntryOk(e)) ==> !(Draws(done + all, budget) && AllOk(all)))
  {
    hide Left;
    hide AllOk;
    hide Draws;
    hide Acquired;
    hide EntryOk;
    hide EntriesOf;
    ChargesFrom(step, backing, i);
    if step.charges[i].backing == backing {
      var e := Entry(RoleOf(step.kind), step.observed, step.charges[i]);
      var all := EntriesOf(step, step.charges, backing);
      var rest := EntriesOf(step, step.charges[i + 1..], backing);
      NextEntry(done, seen, e, all, rest, budget, left);
      NextOk(seen, e, all, rest);
    }
  }

  lemma ChargesFrom(step: Step, backing: string, i: nat)
    requires i < |step.charges|
    ensures EntriesOf(step, step.charges[i..], backing)
         == (if step.charges[i].backing == backing then [Entry(RoleOf(step.kind), step.observed, step.charges[i])] else [])
            + EntriesOf(step, step.charges[i + 1..], backing)
    ensures step.charges[i].backing != backing ==>
      EntriesOf(step, step.charges[i..], backing) == EntriesOf(step, step.charges[i + 1..], backing)
  {
    assert step.charges[i..][1..] == step.charges[i + 1..];
  }

  lemma StepsFrom(steps: seq<Step>, backing: string, i: nat)
    requires i < |steps|
    ensures Entries(steps[i..], backing) == EntriesOf(steps[i], steps[i].charges, backing) + Entries(steps[i + 1..], backing)
  {
    hide EntriesOf;
    assert steps[i..][1..] == steps[i + 1..];
  }

  lemma DrawOne(budget: multiset<Key>, drawn: multiset<Key>, k: Key, rest: multiset<Key>)
    requires drawn <= budget
    ensures (budget - drawn)[k] > 0 ==> drawn + multiset{k} <= budget
    ensures (budget - drawn)[k] > 0 ==> budget - drawn - multiset{k} == budget - (drawn + multiset{k})
    ensures (budget - drawn)[k] == 0 ==> !(drawn + multiset{k} + rest <= budget)
  {
    assert (drawn + multiset{k} + rest)[k] > drawn[k];
  }

  /** One more entry of the journal: it draws within the budget exactly when the
      budget still holds its key, and if it does not, nothing after it mends that. */
  lemma NextEntry(done: seq<Entry>, seen: seq<Entry>, e: Entry, all: seq<Entry>, rest: seq<Entry>, budget: seq<Key>, left: multiset<Key>)
    requires all == seen + ([e] + rest) && Left(left, budget, done + seen)
    ensures left[KeyOf(e)] > 0 ==> Left(left - multiset{KeyOf(e)}, budget, done + (seen + [e]))
    ensures left[KeyOf(e)] == 0 ==> !Draws(done + all, budget)
  {
    assert done + (seen + [e]) == (done + seen) + [e];
    assert done + all == ((done + seen) + [e]) + rest;
    AppendedDrawn((done + seen) + [e], rest);
    AppendedDrawn(done + seen, [e]);
    assert KeysOf([e]) == [KeyOf(e)];
    assert Drawn([e]) == multiset{KeyOf(e)};
    hide Drawn;
    hide KeysOf;
    DrawOne(multiset(budget), Drawn(done + seen), KeyOf(e), Drawn(rest));
  }

  lemma NextOk(seen: seq<Entry>, e: Entry, all: seq<Entry>, rest: seq<Entry>)
    requires all == seen + ([e] + rest)
    ensures all == seen + [e] + rest
    ensures AllOk(all) ==> EntryOk(e)
    ensures AllOk(seen) && EntryOk(e) ==> AllOk(seen + [e])
    ensures Acquired(seen + [e]) == Acquired(seen) + e.charge.acquired
  {
    assert all[|seen|] == e;
    Appended(seen, [e]);
    hide EntryOk;
    hide KeysOf;
  }

  /** transition_ledger accepts exactly the records Accepts describes. */
  method Transition(r: Record) returns (result: Result<Balance, Fault>)
    ensures result.Ok? <==> Accepts(r)
    ensures result.Ok? ==>
      && result.value.planned == Bytes(Budget(r)) && result.value.acquired == Acquired(Journal(r))
      && result.value.remaining == Outstanding(Journal(r)) + Bytes(Undrawn(Budget(r), KeysOf(Journal(r))))
      && result.value.root == RootTarget(r).value && result.value.steps == ActiveSteps(r)
      && [result.value.rootStep] == RootsOf(ActiveSteps(r))
    ensures result.Ok? <==> LedgerFields.Acceptable(r)
    ensures result.Ok? ==> LedgerFields.BalanceOf(r, result.value)
  {
    LedgerFields.AcceptsIff(r, LedgerFields.LastAttempt(r));
    hide LedgerFields.AcceptableAs;
    hide LedgerFields.BalanceOf;
    if !HasRoles(r) {
      return Err(NoRoles);
    }
    if !OneBacking(r) {
      return Err(SplitBacking);
    }
    var backing := Backing(r);
    var budget := Budget(r);
    var planned := Bytes(budget);
    var steps := ActiveSteps(r);
    var roots := RootsOf(steps);
    if !RootProof(roots) {
      return Err(NoRootProof);
    }
    var fault, acquired := DrawAll(steps, backing, budget);
    if fault.Some? {
      return Err(fault.value);
    }
    if !(0 < acquired <= planned) {
      return Err(BadTotal);
    }
    assert AllOk(Journal(r)) && forall i | 0 <= i < |Journal(r)| :: Journal(r)[i] in Journal(r);
    Conservation(r);
    var balance := Balance(RootTarget(r).value, roots[0], planned, acquired, planned - acquired, steps);
    LedgerFields.Balanced(r, balance);
    return Ok(balance);
  }

  /** How far the loop over the steps has come. */
  ghost predicate InJournal(steps: seq<Step>, backing: string, budget: seq<Key>, done: seq<Entry>, i: nat,
      left: multiset<Key>, acquired: int)
  {
    && i <= |steps|
    && Entries(steps, backing) == done + Entries(steps[i..], backing)
    && Left(left, budget, done) && AllOk(done) && acquired == Acquired(done)
  }

  /** The loop over the steps. */
  method DrawAll(steps: seq<Step>, backing: string, budget: seq<Key>) returns (fault: Option<Fault>, acquired: int)
    ensures fault.None? <==> Draws(Entries(steps, backing), budget) && AllOk(Entries(steps, backing))
    ensures fault.None? ==> acquired == Acquired(Entries(steps, backing))
  {
    hide InJournal;
    hide AllOk;
    hide Draws;
    hide Acquired;
    hide Entries;
    hide EntriesOf;
    fault, acquired := None, 0;
    var left := multiset(budget);
    ghost var done: seq<Entry> := [];
    StartJournal(steps, backing, budget);
    var i := 0;
    while i < |steps|
      invariant 0 <= i <= |steps| && fault.None?
      invariant InJournal(steps, backing, budget, done, i, left, acquired)
    {
      NextStep(steps, backing, budget, done, i, left, acquired);
      var left', drawn, why := DrawStep(steps[i], backing, left, budget, done);
      if why.Some? {
        return why, 0;
      }
      AfterStep(steps, backing, budget, done, i, left, acquired, left');
      left, acquired := left', acquired + drawn;
      done := done + EntriesOf(steps[i], steps[i].charges, backing);
      i := i + 1;
    }
    EndJournal(steps, backing, budget, done, left, acquired);
  }

  lemma StartJournal(steps: seq<Step>, backing: string, budget: seq<Key>)
    ensures InJournal(steps, backing, budget, [], 0, multiset(budget), 0)
  {
    assert steps[0..] == steps;
    hide Entries;
  }

  lemma EndJournal(steps: seq<Step>, backing: string, budget: seq<Key>, done: seq<Entry>, left: multiset<Key>, acquired: int)
    requires InJournal(steps, backing, budget, done, |steps|, left, acquired)
    ensures done == Entries(steps, backing)
    ensures Draws(done, budget) && AllOk(done) && acquired == Acquired(done)
  {
    assert Entries(steps[|steps|..], backing) == [];
    hide Drawn;
    hide Acquired;
  }

  /** Before a step is drawn: what it may not do if the journal is to be accepted. */
  lemma NextStep(steps: seq<Step>, backing: string, budget: seq<Key>, done: seq<Entry>, i: nat, left: multiset<Key>, acquired: int)
    requires i < |steps| && InJournal(steps, backing, budget, done, i, left, acquired)
    ensures Left(left, budget, done)
    ensures var more := EntriesOf(steps[i], steps[i].charges, backing);
      !(Draws(done + more, budget) && AllOk(more))
      ==> !(Draws(Entries(steps, backing), budget) && AllOk(Entries(steps, backing)))
  {
    hide Left;
    hide AllOk;
    hide Draws;
    hide Acquired;
    hide Entries;
    hide EntriesOf;
    var more := EntriesOf(steps[i], steps[i].charges, backing);
    StepsFrom(steps, backing, i);
    StepDrawn(Entries(steps, backing), done, more, Entries(steps[i + 1..], backing), budget);
  }

  /** After a step is drawn. */
  lemma AfterStep(steps: seq<Step>, backing: string, budget: seq<Key>, done: seq<Entry>, i: nat, left: multiset<Key>,
      acquired: int, left': multiset<Key>)
    requires i < |steps| && InJournal(steps, backing, budget, done, i, left, acquired)
    requires var more := EntriesOf(steps[i], steps[i].charges, backing); Left(left', budget, done + more) && AllOk(more)
    ensures var more := EntriesOf(steps[i], steps[i].charges, backing);
      InJournal(steps, backing, budget, done + more, i + 1, left', acquired + Acquired(more))
  {
    hide Left;
    hide AllOk;
    hide Draws;
    hide Acquired;
    hide Entries;
    hide EntriesOf;
    var more := EntriesOf(steps[i], steps[i].charges, backing);
    StepsFrom(steps, backing, i);
    StepDrawn(Entries(steps, backing), done, more, Entries(steps[i + 1..], backing), budget);
  }

  lemma StepDrawn(journal: seq<Entry>, done: seq<Entry>, more: seq<Entry>, rest: seq<Entry>, budget: seq<Key>)
    requires journal == done + (more + rest)
    ensures journal == done + more + rest
    ensures Draws(journal, budget) ==> Draws(done + more, budget)
    ensures Acquired(done + more) == Acquired(done) + Acquired(more)
    ensures AllOk(journal) ==> AllOk(more)
    ensures AllOk(done) && AllOk(more) ==> AllOk(done + more)
  {
    assert journal == done + more + rest;
    AppendedDrawn(done + more, rest);
    Appended(done, more);
    hide Drawn;
    hide KeysOf;
    hide Acquired;
    hide EntryOk;
    forall e | e in more ensures e in journal {
      var k :| 0 <= k < |more| && more[k] == e;
      assert journal[|done| + k] == e;
    }
  }
}
