/** What the steps of the foreign-VM pass ask, in order, and which answers they go on
    with: a step runs its script up to the first answer it does not accept, and returns
    normally exactly when it accepted them all. */
module ForeignScript {
  import opened Text
  import opened VmCid
  import opened ForeignCluster

  /** A query, and the answer it is to have. */
  datatype Expect =
    | FreeLook(vmid: nat)
    | OneNode(node: string)
    | Accepted(q: Query)
    | CameUpAs(node: string, vmid: nat, config: Config)
    | Shows(node: string, vmid: nat, config: Config)
    | ShowsOurs(node: string, vmid: nat)
    | ShowsStatus(node: string, vmid: nat, status: Status)
    | Says(rpc: Rpc, cid: string, toAz2: bool, reply: Reply)
    | Az1Alive(vmid: nat)
    | Az1Shows(vmid: nat, config: Config)

  function QueryOf(x: Expect): Query {
    match x
    case FreeLook(vmid) => InUse(vmid)
    case OneNode(_) => Nodes
    case Accepted(q) => q
    case CameUpAs(node, vmid, _) => ReadConfig(node, vmid)
    case Shows(node, vmid, _) => ReadConfig(node, vmid)
    case ShowsOurs(node, vmid) => ReadConfig(node, vmid)
    case ShowsStatus(node, vmid, _) => ReadStatus(node, vmid)
    case Says(rpc, cid, toAz2, _) => Call(rpc, cid, toAz2)
    case Az1Alive(vmid) => Az1Exists(vmid)
    case Az1Shows(vmid, _) => Az1Config(vmid)
  }

  predicate OurName(config: Config, vmid: nat) {
    "name" in config && config["name"] == "lifecycle-handmade-" + Decimal(vmid)
  }

  /** No tags field, or one of whitespace only. */
  predicate NoTags(config: Config) { "tags" !in config || Strip(config["tags"]) == "" }

  lemma OursIff(config: Config, vmid: nat)
    ensures NamedOurs(config, vmid) <==> OurName(config, vmid)
    ensures Untagged(config) <==> NoTags(config)
  {
    hide Strip;
    hide Decimal;
  }

  predicate Meets(x: Expect, a: Answer) {
    && a.ok
    && match x
       case FreeLook(_) => !a.inUse
       case OneNode(node) => a.nodes != [] && a.nodes[0] == node
       case Accepted(_) => true
       case CameUpAs(_, vmid, config) => a.config == config && OurName(config, vmid) && NoTags(config)
       case Shows(_, vmid, config) => a.config == config && OurName(config, vmid)
       case ShowsOurs(_, vmid) => OurName(a.config, vmid) && NoTags(a.config)
       case ShowsStatus(_, _, status) => a.status == status
       case Says(_, _, _, reply) => a.reply == reply
       case Az1Alive(_) => a.inUse
       case Az1Shows(_, config) => a.config == config
  }

  /** From position `from` on the log is the script, up to its end or up to the first
      answer that is not the expected one; `ok` tells which. */
  predicate Ran(log: seq<Event>, from: nat, script: seq<Expect>, ok: bool) {
    && from <= |log| <= from + |script|
    && (forall i | from <= i < |log| :: log[i].query == QueryOf(script[i - from]))
    && (forall i | from <= i < |log| - 1 :: Meets(script[i - from], log[i].answer))
    && (ok ==> |log| == from + |script| && (|log| > from ==> Meets(script[|log| - 1 - from], log[|log| - 1].answer)))
    && (!ok ==> |log| > from && !Meets(script[|log| - 1 - from], log[|log| - 1].answer))
  }

  lemma RanNone(log: seq<Event>)
    ensures Ran(log, |log|, [], true)
  {
  }

  /** One more query. */
  lemma RanAsk(log: seq<Event>, from: nat, script: seq<Expect>, x: Expect, e: Event)
    requires Ran(log, from, script, true) && e.query == QueryOf(x)
    ensures Ran(log + [e], from, script + [x], Meets(x, e.answer))
  {
    hide Meets;
    hide QueryOf;
    var more, all := log + [e], script + [x];
    assert forall i | from <= i < |log| :: more[i] == log[i] && all[i - from] == script[i - from];
    assert more[|log|] == e && all[|script|] == x;
  }

  lemma RanStop(log: seq<Event>, from: nat, script: seq<Expect>, rest: seq<Expect>)
    requires Ran(log, from, script, false)
    ensures Ran(log, from, script + rest, false)
  {
    hide Meets;
    hide QueryOf;
    assert forall k | 0 <= k < |script| :: (script + rest)[k] == script[k];
  }

  /** One script after another. */
  lemma RanBoth(middle: seq<Event>, log: seq<Event>, from: nat, first: seq<Expect>, second: seq<Expect>, ok: bool)
    requires Ran(middle, from, first, true) && middle <= log && Ran(log, |middle|, second, ok)
    ensures Ran(log, from, first + second, ok)
  {
    hide Meets;
    hide QueryOf;
    var all := first + second;
    BothAsk(middle, log, from, first, second);
    BothMeet(middle, log, from, first, second);
    if |log| > |middle| { assert all[|log| - 1 - from] == second[|log| - 1 - |middle|]; }
  }

  lemma BothAsk(middle: seq<Event>, log: seq<Event>, from: nat, first: seq<Expect>, second: seq<Expect>)
    requires from <= |middle| == from + |first| && middle <= log && |log| <= |middle| + |second|
    requires forall i | from <= i < |middle| :: middle[i].query == QueryOf(first[i - from])
    requires forall i | |middle| <= i < |log| :: log[i].query == QueryOf(second[i - |middle|])
    ensures forall i | from <= i < |log| :: log[i].query == QueryOf((first + second)[i - from])
  {
    hide QueryOf;
    forall i | from <= i < |log| ensures log[i].query == QueryOf((first + second)[i - from]) {
      if i < |middle| {
        assert log[i] == middle[i] && (first + second)[i - from] == first[i - from];
      } else {
        assert (first + second)[i - from] == second[i - |middle|];
      }
    }
  }

  lemma BothMeet(middle: seq<Event>, log: seq<Event>, from: nat, first: seq<Expect>, second: seq<Expect>)
    requires from <= |middle| == from + |first| && middle <= log && |log| <= |middle| + |second|
    requires forall i | from <= i < |middle| :: Meets(first[i - from], middle[i].answer)
    requires forall i | |middle| <= i < |log| - 1 :: Meets(second[i - |middle|], log[i].answer)
    ensures forall i | from <= i < |log| - 1 :: Meets((first + second)[i - from], log[i].answer)
    ensures |log| == |middle| > from ==> Meets((first + second)[|log| - 1 - from], log[|log| - 1].answer)
  {
    hide Meets;
    forall i | from <= i < |middle| ensures Meets((first + second)[i - from], log[i].answer) {
      assert log[i] == middle[i] && (first + second)[i - from] == first[i - from];
    }
    forall i | |middle| <= i < |log| - 1 ensures Meets((first + second)[i - from], log[i].answer) {
      assert (first + second)[i - from] == second[i - |middle|];
    }
  }

  // ---------------------------------------------------------------- scripts

  /** _assert_az1_untouched */
  function Az1Script(vmid: nat, before: Config): seq<Expect> { [Az1Alive(vmid), Az1Shows(vmid, before)] }

  /** absent_vmid */
  function AbsentScript(cid: Cid, before: Config): seq<Expect> {
    [FreeLook(cid.vmid)]
    + (if (cid.cluster != "" || cid.token != "") && cid.cluster != "00000000" then StampedScript(cid, before) else [])
    + [FreeLook(cid.vmid), Says(HasVm, PathId(cid), true, Value(false))] + Az1Script(cid.vmid, before)
  }

  function StampedScript(cid: Cid, before: Config): seq<Expect> {
    [Says(HasVm, Print(cid), true, Value(false)), Says(DeleteVm, Print(cid), true, Refusal(true))] + Az1Script(cid.vmid, before)
  }

  /** _create_handmade, for the node that was asked for or is the first one online, and
      the config the VM came up with. */
  function MakeScript(az2Node: string, node: string, vmid: nat, config: Config): seq<Expect> {
    [FreeLook(vmid)] + (if az2Node == "" then [OneNode(node)] else []) + BornScript(node, vmid, config)
  }

  function BornScript(node: string, vmid: nat, config: Config): seq<Expect> {
    [Accepted(Create(node, vmid, Name(vmid)))] + ([Accepted(Await(node))] + UpScript(node, vmid, config))
  }

  function UpScript(node: string, vmid: nat, config: Config): seq<Expect> {
    [CameUpAs(node, vmid, config), ShowsStatus(node, vmid, Status("stopped", ""))]
  }

  /** _assert_handmade_untouched */
  function UntouchedScript(made: Made): seq<Expect> {
    [Shows(made.node, made.vmid, made.config), ShowsStatus(made.node, made.vmid, made.status)]
  }

  /** One row of the table of answers. */
  function RowScript(rpc: Rpc, cid: Cid, reply: Reply, made: Made): seq<Expect> {
    [Says(rpc, Print(cid), true, reply)] + UntouchedScript(made)
  }

  /** _collision_answers */
  function TableScript(cid: Cid, warn: bool, made: Made): seq<Expect> {
    RowScript(HasVm, cid, Value(warn), made)
    + RowScript(GetDisks, cid, if warn then Listing else Refusal(true), made)
    + RowScript(DeleteVm, cid, Refusal(true), made)
    + RowScript(RebootVm, cid, Refusal(true), made)
    + RowScript(SetMetadata, cid, Refusal(true), made)
  }

  /** The table up to its first two rows and `k` more. */
  function Rows(cid: Cid, warn: bool, made: Made, k: nat): seq<Expect> {
    var two := RowScript(HasVm, cid, Value(warn), made) + RowScript(GetDisks, cid, if warn then Listing else Refusal(true), made);
    if k == 0 then two
    else if k == 1 then two + RowScript(DeleteVm, cid, Refusal(true), made)
    else if k == 2 then two + RowScript(DeleteVm, cid, Refusal(true), made) + RowScript(RebootVm, cid, Refusal(true), made)
    else TableScript(cid, warn, made)
  }

  lemma NextRow(cid: Cid, warn: bool, made: Made, k: nat)
    requires k < 3
    ensures Rows(cid, warn, made, k + 1)
         == Rows(cid, warn, made, k) + RowScript([DeleteVm, RebootVm, SetMetadata][k], cid, Refusal(true), made)
  {
    hide RowScript;
  }

  lemma RowsStop(log: seq<Event>, from: nat, cid: Cid, warn: bool, made: Made, k: nat)
    requires Ran(log, from, Rows(cid, warn, made, k), false)
    ensures Ran(log, from, TableScript(cid, warn, made), false)
  {
    hide Ran;
    hide RowScript;
    var all, n := TableScript(cid, warn, made), |Rows(cid, warn, made, k)|;
    var reboot, set_ := RowScript(RebootVm, cid, Refusal(true), made), RowScript(SetMetadata, cid, Refusal(true), made);
    var delete := RowScript(DeleteVm, cid, Refusal(true), made);
    var rest := if k == 0 then delete + reboot + set_ else if k == 1 then reboot + set_ else if k == 2 then set_ else [];
    assert Rows(cid, warn, made, k) + rest == all;
    RanStop(log, from, Rows(cid, warn, made, k), rest);
  }

  /** The part of collision that is undone on any failure. */
  function TryScript(az2Node: string, node: string, cid: Cid, warn: bool, config: Config): seq<Expect> {
    var made := Made(node, cid.vmid, config, Status("stopped", ""));
    MakeScript(az2Node, node, cid.vmid, config) + UntouchedScript(made) + TableScript(cid, warn, made)
  }

  /** The destroy of a VM found on the VMID: read as the snapshot, or without one as
      ours and untagged, then destroyed and seen gone. */
  function DestroyScript(node: string, vmid: nat, snapshot: Option<Made>): seq<Expect> {
    ProofScript(node, vmid, snapshot) + [Accepted(Destroy(node, vmid)), Accepted(Await(node)), FreeLook(vmid)]
  }

  function ProofScript(node: string, vmid: nat, snapshot: Option<Made>): seq<Expect> {
    match snapshot
    case Some(made) => [Shows(node, vmid, made.config), ShowsStatus(node, vmid, made.status)]
    case None => [ShowsOurs(node, vmid)]
  }

  /** token_mismatch, for the token that was drawn. */
  function TokenScript(wrong: Cid, before: Config): seq<Expect> {
    [Says(HasVm, Print(wrong), false, Value(false)), Says(DeleteVm, Print(wrong), false, Refusal(true))]
    + Az1Script(wrong.vmid, before)
  }

  // -------------------------------------------------- polls and other loops

  /** The bounded poll for a VM: looks at the VMID until one finds it held or raises,
      one look when the create is confirmed and `most` more when it is not. */
  predicate Polled(log: seq<Event>, from: nat, looks: nat, vmid: nat, most: nat) {
    && 1 <= looks <= 1 + most && from + looks <= |log|
    && (forall i | from <= i < from + looks :: log[i].query == InUse(vmid))
    && (forall i | from <= i < from + looks - 1 :: SeenFree(log[i], vmid))
    && (SeenFree(log[from + looks - 1], vmid) ==> looks == 1 + most)
  }

  /** _remove_handmade: after the poll nothing more when the VMID is free or the look
      raised, and the destroy when a guest was found. */
  predicate Removed(log: seq<Event>, from: nat, looks: nat, most: nat, node: string, vmid: nat, snapshot: Option<Made>, ok: bool) {
    && Polled(log, from, looks, vmid, most)
    && var last := log[from + looks - 1];
    if last.answer.ok && last.answer.inUse then Ran(log, from + looks, DestroyScript(node, vmid, snapshot), ok)
    else |log| == from + looks && (ok <==> last.answer.ok)
  }

  /** The create of this position is not known to have finished. */
  predicate Unconfirmed(log: seq<Event>, c: nat) { !(c + 1 < |log| && log[c + 1].answer.ok) }

  /** _wrong_token_cid: at most eight draws, up to one that raises or differs. */
  predicate Drew(log: seq<Event>, from: nat, draws: nat, cid: Cid, r: Option<Cid>) {
    && 1 <= draws <= 8 && from + draws <= |log|
    && (forall i | from <= i < from + draws :: log[i].query == DrawToken)
    && (forall i | from <= i < from + draws - 1 :: log[i].answer.ok && log[i].answer.token == cid.token)
    && var last := log[from + draws - 1].answer;
    && (last.ok && last.token == cid.token ==> draws == 8)
    && r == if last.ok && last.token != cid.token && Stamped(cid) && IsStamp(last.token) then Some(cid.(token := last.token)) else None
  }

  lemma DrewStill(log: seq<Event>, more: seq<Event>, from: nat, draws: nat, cid: Cid, r: Option<Cid>)
    requires Drew(log, from, draws, cid, r) && log <= more
    ensures Drew(more, from, draws, cid, r)
  {
    assert forall i | 0 <= i < |log| :: more[i] == log[i];
  }

  lemma DrewToken(log: seq<Event>, from: nat, draws: nat, cid: Cid, wrong: Cid)
    requires Drew(log, from, draws, cid, Some(wrong))
    ensures draws > 0 && log[from + draws - 1].answer.token != cid.token
    ensures wrong == cid.(token := log[from + draws - 1].answer.token)
  {
  }

  lemma PolledStill(log: seq<Event>, more: seq<Event>, from: nat, looks: nat, vmid: nat, most: nat)
    requires Polled(log, from, looks, vmid, most) && log <= more
    ensures Polled(more, from, looks, vmid, most)
  {
    assert forall i | 0 <= i < |log| :: more[i] == log[i];
  }

  /** token_mismatch: nothing for a bare CID; otherwise a wrong token is drawn, and with
      it the script runs. */
  predicate Mismatched(log: seq<Event>, from: nat, draws: nat, cid: Cid, before: Config, ok: bool) {
    if !Stamped(cid) then |log| == from && ok
    else
      && from + draws <= |log|
      && (|| (Drew(log, from, draws, cid, None) && |log| == from + draws && !ok)
          || (&& from + draws > from && log[from + draws - 1].answer.token != cid.token
              && var wrong := cid.(token := log[from + draws - 1].answer.token);
              Drew(log, from, draws, cid, Some(wrong)) && Ran(log, from + draws, TokenScript(wrong, before), ok)))
  }

  // ------------------------------------------------------------ the whole pass

  /** How far a collision step came: where its try and its removal ended, and how. */
  datatype Story = Story(node: string, config: Config, tried: nat, good: bool, looks: nat, removed: nat, gone: bool)

  /** collision: the try, then after a create the removal whatever the try gave, and the
      look at the first cluster only when both went well. */
  predicate Collided(log: seq<Event>, from: nat, cid: Cid, before: Config, warn: bool, az2Node: string, settle: nat, s: Story, ok: bool) {
    && from <= s.tried <= s.removed <= |log|
    && (az2Node != "" ==> s.node == az2Node)
    && Ran(log[..s.tried], from, TryScript(az2Node, s.node, cid, warn, s.config), s.good)
    && if !Created(log[..s.tried], from) then s.removed == |log| == s.tried && !ok
       else
         && Removed(log[..s.removed], s.tried, s.looks, MostLooks(log[..s.tried], settle), s.node, cid.vmid, Snapshot(log[..s.tried]), s.gone)
         && if s.good && s.gone then Ran(log, s.removed, Az1Script(cid.vmid, before), ok) else s.removed == |log| && !ok
  }

  /** How often the poll looks again. */
  function MostLooks(log: seq<Event>, settle: nat): nat {
    match LastCreate(log)
    case None => 0
    case Some(c) => if Unconfirmed(log, c) then settle else 0
  }

  datatype Whole = Whole(first: nat, absent: bool, second: nat, story: Story, collided: bool, draws: nat)

  /** The three steps, each only after the one before returned normally. */
  predicate Passed(log: seq<Event>, from: nat, cid: Cid, before: Config, warn: bool, az2Node: string, settle: nat, w: Whole, ok: bool) {
    && from <= w.first <= w.second <= |log|
    && Ran(log[..w.first], from, AbsentScript(cid, before), w.absent)
    && if !w.absent then w.first == |log| && !ok
       else
         && Collided(log[..w.second], w.first, cid, before, warn, az2Node, settle, w.story, w.collided)
         && if !w.collided then w.second == |log| && !ok
            else Mismatched(log, w.second, w.draws, cid, before, ok)
  }

  /** run: the CID is read, then the first cluster's VM, then the steps run. */
  predicate RanWhole(log: seq<Event>, from: nat, vmCid: string, warn: bool, az2Node: string, settle: nat, w: Whole, ok: bool) {
    match Parse(vmCid)
    case None => |log| == from && !ok
    case Some(cid) =>
      && from < |log| && log[from].query == Az1Config(cid.vmid)
      && if !log[from].answer.ok then |log| == from + 1 && !ok
         else Passed(log, from + 1, cid, log[from].answer.config, warn, az2Node, settle, w, ok)
  }
}
