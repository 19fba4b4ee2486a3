/** The planned/acquired byte ledger of a VM allocation
    (scripts/_storage_placement_transition.py): journal charges draw down a budget
    of planned charges on one backing. */
module Ledger {
  import opened Text

  const CREATE := "vm.QEMU.Create"
  const CLONE := "vm.Nodes.CreateQemuClone"
  const VOLUME := "vm.Storage.CreateVolume"
  const UPLOAD := "vm.Storage.Upload"

  datatype Target = Target(role: string, storageId: string, capacityKey: string)

  datatype PlanCharge = PlanCharge(capacityKey: string, role: string, bytes: int)

  datatype Plan = Plan(targets: seq<Target>, charges: seq<PlanCharge>)

  datatype Charge = Charge(backing: string, planned: int, acquired: int, outstanding: int)

  datatype Step = Step(kind: string, observed: bool, attempt: nat, upid: string, volids: seq<string>, charges: seq<Charge>)

  datatype Record = Record(intent: Plan, attempts: seq<Plan>, steps: seq<Step>)

  /** A budget entry: a role and a number of bytes. */
  datatype Key = Key(role: string, bytes: int)

  datatype Balance = Balance(root: Target, rootStep: Step, planned: int, acquired: int, remaining: int, steps: seq<Step>)

  datatype Fault = NoRoles | SplitBacking | NoRootProof | OverBudget | BadPartition | NotReflected | BadTotal

  predicate IsRoot(kind: string) { kind == CREATE || kind == CLONE }

  /** The role a step's kind acquires for. */
  function RoleOf(kind: string): Option<string> {
    if IsRoot(kind) then Some("root")
    else if kind == VOLUME then Some("ephemeral")
    else if kind == UPLOAD then Some("iso")
    else None
  }

  /** active_plan */
  function ActivePlan(r: Record): Plan { if r.attempts == [] then r.intent else r.attempts[|r.attempts| - 1] }

  function ActiveAttempt(r: Record): nat { if r.attempts == [] then 0 else |r.attempts| - 1 }

  /** The target of a role; a later one replaces an earlier one. */
  function TargetOf(targets: seq<Target>, role: string): Option<Target> {
    if targets == [] then None
    else if targets[|targets| - 1].role == role then Some(targets[|targets| - 1])
    else TargetOf(targets[..|targets| - 1], role)
  }

  function StepsOf(steps: seq<Step>, attempt: nat): seq<Step> {
    if steps == [] then []
    else (if steps[0].attempt == attempt then [steps[0]] else []) + StepsOf(steps[1..], attempt)
  }

  function RootsOf(steps: seq<Step>): seq<Step> {
    if steps == [] then []
    else (if IsRoot(steps[0].kind) && steps[0].observed then [steps[0]] else []) + RootsOf(steps[1..])
  }

  /** The planned charges on a backing. */
  function BudgetOf(charges: seq<PlanCharge>, backing: string): seq<Key> {
    if charges == [] then []
    else (if charges[0].capacityKey == backing then [Key(charges[0].role, charges[0].bytes)] else []) + BudgetOf(charges[1..], backing)
  }

  function Bytes(keys: seq<Key>): int { if keys == [] then 0 else keys[0].bytes + Bytes(keys[1..]) }

  /** A journal charge with what its step says about it. */
  datatype Entry = Entry(role: Option<string>, observed: bool, charge: Charge)

  function EntriesOf(step: Step, charges: seq<Charge>, backing: string): seq<Entry> {
    if charges == [] then []
    else (if charges[0].backing == backing then [Entry(RoleOf(step.kind), step.observed, charges[0])] else [])
         + EntriesOf(step, charges[1..], backing)
  }

  /** Every journal charge on a backing, in the order of the journal. */
  function Entries(steps: seq<Step>, backing: string): seq<Entry> {
    if steps == [] then [] else EntriesOf(steps[0], steps[0].charges, backing) + Entries(steps[1..], backing)
  }

  /** The budget entry a charge draws. */
  function KeyOf(e: Entry): Key { Key(if e.role.Some? then e.role.value else "", e.charge.planned) }

  function KeysOf(es: seq<Entry>): seq<Key> { if es == [] then [] else [KeyOf(es[0])] + KeysOf(es[1..]) }

  function Acquired(es: seq<Entry>): int { if es == [] then 0 else es[0].charge.acquired + Acquired(es[1..]) }

  function Outstanding(es: seq<Entry>): int { if es == [] then 0 else es[0].charge.outstanding + Outstanding(es[1..]) }

  /** planned == acquired + outstanding, none negative. */
  predicate Partitioned(c: Charge) {
    c.planned >= 0 && c.acquired >= 0 && c.outstanding >= 0 && c.planned == c.acquired + c.outstanding
  }

  /** What is acquired was observed and is fully reflected. */
  predicate Reflected(e: Entry) { e.charge.acquired != 0 ==> e.observed && e.charge.outstanding == 0 }

  predicate EntryOk(e: Entry) { e.role.Some? && Partitioned(e.charge) && Reflected(e) }

  /** The charges draw at most the budget. */
  predicate Draws(es: seq<Entry>, budget: seq<Key>) { Drawn(es) <= multiset(budget) }

  function Drawn(es: seq<Entry>): multiset<Key> { multiset(KeysOf(es)) }

  /** What is left of the budget when each key removes one entry. */
  function Undrawn(budget: seq<Key>, keys: seq<Key>): seq<Key>
    decreases |keys|
  {
    if keys == [] then budget else Undrawn(Without(budget, keys[0]), keys[1..])
  }

  /** The budget without the first entry like k. */
  function Without(budget: seq<Key>, k: Key): (r: seq<Key>)
    ensures |r| <= |budget|
  {
    if budget == [] then [] else if budget[0] == k then budget[1..] else [budget[0]] + Without(budget[1..], k)
  }

  // -------------------------------------------------- the accepted records

  function RootTarget(r: Record): Option<Target> { TargetOf(ActivePlan(r).targets, "root") }

  predicate HasRoles(r: Record) { RootTarget(r).Some? && TargetOf(ActivePlan(r).targets, "ephemeral").Some? }

  predicate OneBacking(r: Record)
    requires HasRoles(r)
  {
    var ephemeral := TargetOf(ActivePlan(r).targets, "ephemeral").value;
    RootTarget(r).value.storageId == ephemeral.storageId && RootTarget(r).value.capacityKey == ephemeral.capacityKey
  }

  function Backing(r: Record): string
    requires HasRoles(r)
  {
    RootTarget(r).value.capacityKey
  }

  function ActiveSteps(r: Record): seq<Step> { StepsOf(r.steps, ActiveAttempt(r)) }

  predicate RootProof(roots: seq<Step>) { |roots| == 1 && roots[0].upid != "" && roots[0].volids != [] }

  function Budget(r: Record): seq<Key>
    requires HasRoles(r)
  {
    BudgetOf(ActivePlan(r).charges, Backing(r))
  }

  function Journal(r: Record): seq<Entry>
    requires HasRoles(r)
  {
    Entries(ActiveSteps(r), Backing(r))
  }

  /** The records transition_ledger accepts. */
  predicate Accepts(r: Record) {
    && HasRoles(r) && OneBacking(r)
    && RootProof(RootsOf(ActiveSteps(r)))
    && Draws(Journal(r), Budget(r))
    && (forall i | 0 <= i < |Journal(r)| :: EntryOk(Journal(r)[i]))
    && 0 < Acquired(Journal(r)) <= Bytes(Budget(r))
  }

  // ------------------------------------------------------- multisets and sums

  lemma {:induction false} WithoutMeans(budget: seq<Key>, k: Key)
    requires k in budget
    ensures multiset(Without(budget, k)) == multiset(budget) - multiset{k}
    ensures Bytes(Without(budget, k)) == Bytes(budget) - k.bytes
  {
    HeadCounted(budget);
    if budget[0] != k {
      WithoutMeans(budget[1..], k);
      HeadCounted(Without(budget, k));
    }
  }

  lemma HeadCounted(keys: seq<Key>)
    requires keys != []
    ensures multiset(keys) == multiset{keys[0]} + multiset(keys[1..])
  {
    assert keys == [keys[0]] + keys[1..];
  }

  /** The number of bytes in a budget does not depend on its order. */
  lemma {:induction false} BytesPermuted(a: seq<Key>, b: seq<Key>)
    requires multiset(a) == multiset(b)
    ensures Bytes(a) == Bytes(b)
    decreases |a|
  {
    if a == [] {
      assert |multiset(b)| == 0;
    } else {
      assert a[0] in multiset(b);
      WithoutMeans(b, a[0]);
      assert a == [a[0]] + a[1..];
      assert multiset(a[1..]) == multiset(a) - multiset{a[0]};
      BytesPermuted(a[1..], Without(b, a[0]));
    }
  }

  /** Undrawn is the multiset difference, and the bytes add up. */
  lemma {:induction false} UndrawnMeans(budget: seq<Key>, keys: seq<Key>)
    requires multiset(keys) <= multiset(budget)
    ensures multiset(Undrawn(budget, keys)) == multiset(budget) - multiset(keys)
    ensures Bytes(budget) == Bytes(keys) + Bytes(Undrawn(budget, keys))
    decreases |keys|
  {
    if keys == [] {
    } else {
      hide Without;
      HeadCounted(keys);
      assert multiset{keys[0]} <= multiset(keys);
      WithoutMeans(budget, keys[0]);
      UndrawnMeans(Without(budget, keys[0]), keys[1..]);
    }
  }

  /** The drawn bytes split into acquired and outstanding ones. */
  lemma {:induction false} DrawnSplits(es: seq<Entry>)
    requires forall i | 0 <= i < |es| :: EntryOk(es[i])
    ensures Bytes(KeysOf(es)) == Acquired(es) + Outstanding(es)
    ensures Acquired(es) >= 0 && Outstanding(es) >= 0
  {
    if es == [] {
    } else {
      DrawnSplits(es[1..]);
    }
  }

  predicate NonNegative(keys: seq<Key>) { forall i | 0 <= i < |keys| :: keys[i].bytes >= 0 }

  lemma {:induction false} NonNegativeBytes(keys: seq<Key>)
    requires NonNegative(keys)
    ensures Bytes(keys) >= 0
    ensures Bytes(keys) == 0 <==> forall i | 0 <= i < |keys| :: keys[i].bytes == 0
  {
    if keys == [] {
    } else {
      NonNegativeBytes(keys[1..]);
      assert forall i | 0 <= i < |keys[1..]| :: keys[1..][i] == keys[i + 1];
      if forall i | 0 <= i < |keys[1..]| :: keys[1..][i].bytes == 0 {
        forall i | 0 < i < |keys| ensures keys[i].bytes == 0 { assert keys[i] == keys[1..][i - 1]; }
      }
    }
  }

  lemma SubNonNegative(budget: seq<Key>, rest: seq<Key>)
    requires NonNegative(budget) && multiset(rest) <= multiset(budget)
    ensures NonNegative(rest)
  {
    forall i | 0 <= i < |rest| ensures rest[i].bytes >= 0 {
      assert rest[i] in multiset(rest);
      assert rest[i] in budget;
    }
  }

  // ------------------------------------------------------------ main results

  /** Planned bytes are the acquired ones, the outstanding ones and the budget no
      step has drawn. */
  lemma Conservation(r: Record)
    requires Accepts(r)
    ensures Bytes(Budget(r)) == Acquired(Journal(r)) + Outstanding(Journal(r)) + Bytes(Undrawn(Budget(r), KeysOf(Journal(r))))
    ensures multiset(Budget(r)) == multiset(KeysOf(Journal(r))) + multiset(Undrawn(Budget(r), KeysOf(Journal(r))))
  {
    UndrawnMeans(Budget(r), KeysOf(Journal(r)));
    DrawnSplits(Journal(r));
  }

  /** For a plan without negative bytes the draw-down alone keeps the acquired
      bytes within the planned ones. */
  lemma AcquiredWithinPlan(es: seq<Entry>, budget: seq<Key>)
    requires Draws(es, budget) && NonNegative(budget)
    requires forall i | 0 <= i < |es| :: EntryOk(es[i])
    ensures Acquired(es) <= Bytes(budget)
  {
    UndrawnMeans(budget, KeysOf(es));
    DrawnSplits(es);
    SubNonNegative(budget, Undrawn(budget, KeysOf(es)));
    NonNegativeBytes(Undrawn(budget, KeysOf(es)));
  }

  /** For every accepted record: nothing is outstanding and no positive budget is
      undrawn if and only if nothing remains and the plan has no negative bytes. So
      the two agree exactly on plans without negative bytes and wherever something
      remains. */
  lemma NothingRemains(r: Record)
    requires Accepts(r)
    ensures var rest := Undrawn(Budget(r), KeysOf(Journal(r)));
      Outstanding(Journal(r)) == 0 && NonePositive(rest)
      <==> Bytes(Budget(r)) - Acquired(Journal(r)) == 0 && NonNegative(Budget(r))
  {
    Conservation(r);
    var rest := Undrawn(Budget(r), KeysOf(Journal(r)));
    UndrawnMeans(Budget(r), KeysOf(Journal(r)));
    DrawnSplits(Journal(r));
    if NonNegative(Budget(r)) {
      SubNonNegative(Budget(r), rest);
      NonNegativeBytes(rest);
    }
    if Outstanding(Journal(r)) == 0 && NonePositive(rest) {
      NonePositiveBytes(rest);
      assert NonNegative(rest);
      DrawnNonNegative(Journal(r));
      WholeNonNegative(Budget(r), KeysOf(Journal(r)), rest);
    }
  }

  predicate NonePositive(keys: seq<Key>) { forall i | 0 <= i < |keys| :: keys[i].bytes <= 0 }

  lemma {:induction false} NonePositiveBytes(keys: seq<Key>)
    requires NonePositive(keys)
    ensures Bytes(keys) <= 0
    ensures Bytes(keys) == 0 ==> NonNegative(keys)
  {
    if keys == [] {
    } else {
      NonePositiveBytes(keys[1..]);
      assert forall i | 0 < i < |keys| :: keys[i] == keys[1..][i - 1];
    }
  }

  /** What a well-formed journal draws is not negative. */
  lemma {:induction false} DrawnNonNegative(es: seq<Entry>)
    requires forall i | 0 <= i < |es| :: EntryOk(es[i])
    ensures NonNegative(KeysOf(es))
  {
    if es == [] {
    } else {
      DrawnNonNegative(es[1..]);
    }
  }

  lemma WholeNonNegative(budget: seq<Key>, drawn: seq<Key>, rest: seq<Key>)
    requires multiset(budget) == multiset(drawn) + multiset(rest) && NonNegative(drawn) && NonNegative(rest)
    ensures NonNegative(budget)
  {
    forall i | 0 <= i < |budget| ensures budget[i].bytes >= 0 {
      assert budget[i] in multiset(budget);
      assert budget[i] in drawn || budget[i] in rest;
    }
  }

  function NegativePlan(): Record {
    Record(Plan([Target("root", "s", "k"), Target("ephemeral", "s", "k")],
                [PlanCharge("k", "root", 10), PlanCharge("k", "ephemeral", 5), PlanCharge("k", "iso", -5)]),
           [], [Step(CREATE, true, 0, "UPID:", ["s:v"], [Charge("k", 10, 10, 0)])])
  }

  /** With negative bytes in the plan nothing can remain while a positive budget is
      still undrawn. */
  lemma NegativeBytesCancel()
    ensures Accepts(NegativePlan())
    ensures Bytes(Budget(NegativePlan())) - Acquired(Journal(NegativePlan())) == 0
    ensures Key("ephemeral", 5) in Undrawn(Budget(NegativePlan()), KeysOf(Journal(NegativePlan())))
  {
    hide NegativePlan;
    hide BudgetOf;
    hide TargetOf;
    hide Entries;
    hide StepsOf;
    hide RootsOf;
    NegativeRoles();
    NegativeBudget();
    NegativeJournal();
    NegativeSums();
    hide Bytes;
    hide KeysOf;
    hide Acquired;
    hide Undrawn;
    assert Draws(Journal(NegativePlan()), Budget(NegativePlan()));
  }

  lemma NegativeSums()
    ensures var keys := [Key("root", 10), Key("ephemeral", 5), Key("iso", -5)];
      var es := [Entry(Some("root"), true, Charge("k", 10, 10, 0))];
      && Bytes(keys) == Acquired(es) == 10 && KeysOf(es) == [Key("root", 10)]
      && Key("ephemeral", 5) in Undrawn(keys, KeysOf(es))
      && Drawn(es) <= multiset(keys)
  {
    var keys := [Key("root", 10), Key("ephemeral", 5), Key("iso", -5)];
    var es := [Entry(Some("root"), true, Charge("k", 10, 10, 0))];
    assert keys[1..] == [Key("ephemeral", 5), Key("iso", -5)] && keys[1..][1..] == [Key("iso", -5)] && keys[1..][1..][1..] == [];
    assert Bytes(keys[1..][1..]) == -5 && Bytes(keys[1..]) == 0 && Bytes(keys) == 10;
    assert es[1..] == [] && KeysOf(es) == [Key("root", 10)] && Acquired(es) == 10;
    assert [Key("root", 10)][1..] == [];
    assert Undrawn(keys, [Key("root", 10)]) == keys[1..];
    assert keys[1..][0] == Key("ephemeral", 5);
    assert keys == [Key("root", 10)] + keys[1..];
  }

  lemma NegativeRoles()
    ensures HasRoles(NegativePlan()) && OneBacking(NegativePlan()) && Backing(NegativePlan()) == "k"
  {
    var targets := [Target("root", "s", "k"), Target("ephemeral", "s", "k")];
    assert targets[..1] == [Target("root", "s", "k")];
    assert TargetOf(targets, "ephemeral") == Some(targets[1]);
    assert TargetOf(targets[..1], "root") == Some(targets[0]);
    assert TargetOf(targets, "root") == Some(targets[0]);
  }

  lemma NegativeBudget()
    requires HasRoles(NegativePlan()) && Backing(NegativePlan()) == "k"
    ensures Budget(NegativePlan()) == [Key("root", 10), Key("ephemeral", 5), Key("iso", -5)]
  {
    var charges := NegativePlan().intent.charges;
    assert charges[1..][1..] == [PlanCharge("k", "iso", -5)] && charges[1..][1..][1..] == [];
    assert BudgetOf(charges[1..][1..], "k") == [Key("iso", -5)];
    assert BudgetOf(charges[1..], "k") == [Key("ephemeral", 5), Key("iso", -5)];
  }

  lemma NegativeJournal()
    requires HasRoles(NegativePlan()) && Backing(NegativePlan()) == "k"
    ensures Journal(NegativePlan()) == [Entry(Some("root"), true, Charge("k", 10, 10, 0))]
    ensures RootProof(RootsOf(ActiveSteps(NegativePlan())))
  {
    var step := Step(CREATE, true, 0, "UPID:", ["s:v"], [Charge("k", 10, 10, 0)]);
    assert [step][1..] == [] && step.charges[1..] == [];
    assert StepsOf([step], 0) == [step];
    assert IsRoot(step.kind) && step.observed;
    assert RootsOf([]) == [];
    assert RootsOf([step]) == [step];
    assert EntriesOf(step, step.charges, "k") == [Entry(Some("root"), true, Charge("k", 10, 10, 0))];
    assert Entries([step], "k") == [Entry(Some("root"), true, Charge("k", 10, 10, 0))];
  }

  // ---------------------------------------------------------- order of charges

  /** What the order of the journal cannot change. */
  lemma {:induction false} EntriesPermuted(a: seq<Entry>, b: seq<Entry>)
    requires multiset(a) == multiset(b)
    ensures Drawn(a) == Drawn(b)
    ensures Acquired(a) == Acquired(b) && Outstanding(a) == Outstanding(b)
    decreases |a|
  {
    if a == [] {
      assert |multiset(b)| == 0;
    } else {
      hide Drawn;
      hide Acquired;
      hide Outstanding;
      assert a[0] in multiset(b);
      var k :| 0 <= k < |b| && b[k] == a[0];
      var rest := b[..k] + b[k + 1..];
      TakenOut(b, k);
      TakenOut(a, 0);
      assert a[..0] + a[1..] == a[1..];
      Cancel(multiset(a[1..]), multiset(rest), a[0]);
      EntriesPermuted(a[1..], rest);
    }
  }

  lemma Cancel(m: multiset<Entry>, n: multiset<Entry>, e: Entry)
    requires m + multiset{e} == n + multiset{e}
    ensures m == n
  {
    assert m == m + multiset{e} - multiset{e};
    assert n == n + multiset{e} - multiset{e};
  }

  lemma SameEntries(a: seq<Entry>, b: seq<Entry>)
    requires multiset(a) == multiset(b)
    ensures forall e :: e in a <==> e in b
  {
    forall e ensures e in a <==> e in b {
      assert e in multiset(a) <==> e in multiset(b);
    }
  }

  lemma Appended(x: seq<Entry>, y: seq<Entry>)
    ensures KeysOf(x + y) == KeysOf(x) + KeysOf(y)
    ensures Acquired(x + y) == Acquired(x) + Acquired(y)
    ensures Outstanding(x + y) == Outstanding(x) + Outstanding(y)
  {
    AppendedKeys(x, y);
    AppendedBytes(x, y);
    hide KeysOf;
    hide Acquired;
    hide Outstanding;
  }

  lemma {:induction false} AppendedKeys(x: seq<Entry>, y: seq<Entry>)
    ensures KeysOf(x + y) == KeysOf(x) + KeysOf(y)
  {
    if x == [] {
      assert x + y == y;
    } else {
      hide KeyOf;
      AppendedKeys(x[1..], y);
      assert (x + y)[1..] == x[1..] + y;
      assert (x + y)[0] == x[0];
    }
  }

  lemma {:induction false} AppendedBytes(x: seq<Entry>, y: seq<Entry>)
    ensures Acquired(x + y) == Acquired(x) + Acquired(y)
    ensures Outstanding(x + y) == Outstanding(x) + Outstanding(y)
  {
    if x == [] {
      assert x + y == y;
    } else {
      AppendedBytes(x[1..], y);
      assert (x + y)[1..] == x[1..] + y;
    }
  }

  lemma AppendedDrawn(x: seq<Entry>, y: seq<Entry>)
    ensures Drawn(x + y) == Drawn(x) + Drawn(y)
  {
    Appended(x, y);
    hide KeysOf;
  }

  /** Taking one entry out takes out what it counts for. */
  lemma TakenOut(b: seq<Entry>, k: nat)
    requires k < |b|
    ensures var rest := b[..k] + b[k + 1..];
      && multiset(b) == multiset(rest) + multiset{b[k]}
      && Drawn(b) == Drawn(rest) + multiset{KeyOf(b[k])}
      && Acquired(b) == Acquired(rest) + b[k].charge.acquired
      && Outstanding(b) == Outstanding(rest) + b[k].charge.outstanding
  {
    var x, y, z := b[..k], [b[k]], b[k + 1..];
    assert b == x + (y + z);
    Appended(x, y + z);
    Appended(y, z);
    Appended(x, z);
    assert KeysOf(y) == [KeyOf(b[k])];
    assert Acquired(y) == b[k].charge.acquired && Outstanding(y) == b[k].charge.outstanding;
    hide KeysOf;
    hide Acquired;
    hide Outstanding;
  }

  /** Two records with the same plan and the same root evidence whose journals hold
      the same charges in any order are accepted alike, with the same totals. */
  lemma OrderDoesNotMatter(a: Record, b: Record)
    requires ActivePlan(a) == ActivePlan(b) && HasRoles(a)
    requires RootsOf(ActiveSteps(a)) == RootsOf(ActiveSteps(b))
    requires multiset(Journal(a)) == multiset(Journal(b))
    ensures Accepts(a) <==> Accepts(b)
    ensures Bytes(Budget(a)) == Bytes(Budget(b)) && Acquired(Journal(a)) == Acquired(Journal(b))
  {
    EntriesPermuted(Journal(a), Journal(b));
    SameEntries(Journal(a), Journal(b));
    assert (forall i | 0 <= i < |Journal(a)| :: EntryOk(Journal(a)[i])) <==> forall e | e in Journal(a) :: EntryOk(e);
    assert (forall i | 0 <= i < |Journal(b)| :: EntryOk(Journal(b)[i])) <==> forall e | e in Journal(b) :: EntryOk(e);
  }

  /** A plan may list its charges in any order too. */
  lemma {:induction false} PlanOrderDoesNotMatter(es: seq<Entry>, p: seq<Key>, q: seq<Key>)
    requires multiset(p) == multiset(q)
    ensures Bytes(p) == Bytes(q) && (Draws(es, p) <==> Draws(es, q))
  {
    BytesPermuted(p, q);
  }
}
