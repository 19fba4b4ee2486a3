/** The slot's files as write_owner changes them, and the deny-list variable as
    protected_cids reads it. */
module SlotFiles {
  import opened Text
  import opened SlotGuard

  class Slot {
    const isDefault: bool
    const checkoutDefault: bool
    var state: StateFile
    var owner: OwnerFile
    var creds: CredsFile

    constructor (isDefault: bool, checkoutDefault: bool, state: StateFile, owner: OwnerFile, creds: CredsFile)
      ensures this.isDefault == isDefault && this.checkoutDefault == checkoutDefault
      ensures this.state == state && this.owner == owner && this.creds == creds
    {
      this.isDefault, this.checkoutDefault := isDefault, checkoutDefault;
      this.state, this.owner, this.creds := state, owner, creds;
    }

    function View(ps: seq<Protected>, deniedVar: string): World
      reads this
    {
      World(isDefault, checkoutDefault, ps, deniedVar, state, owner, creds)
    }

    /** write_owner: checks the state again and replaces the owner record, or leaves
        every file alone. */
    method WriteOwner(ps: seq<Protected>, deniedVar: string) returns (r: Recording)
      modifies this`owner
      ensures r == RecordOwner(old(View(ps, deniedVar)))
      ensures owner == if r.Wrote? then Owner(r.record) else old(owner)
    {
      if isDefault { return Skipped; }
      if state.Unreadable? { return Failed; }
      if IsEmpty(state.fields) { return Skipped; }
      if LocationReason(View(ps, deniedVar)).Some? { return RefusedToRecord; }
      var listed := ReadDenyList(deniedVar);
      if listed.None? { return Failed; }
      if ConflictOf(ps, listed.value, state.fields).Some? { return RefusedToRecord; }
      var record := RecordOf(IdentityOf(state.fields));
      owner := Owner(record);
      return Wrote(record);
    }
  }

  /** protected_cids */
  method ReadDenyList(raw: string) returns (r: Option<seq<string>>)
    ensures r == ProtectedCids(raw)
  {
    if Strip(raw) == "" { return Some([]); }
    var parts := Split(raw, ',');
    var cids: seq<string> := [];
    var i := 0;
    AllEntries(parts);
    assert ProtectedCids(raw) == ParseEntries(parts);
    hide Strip;
    hide IsVmCid;
    hide ParseEntries;
    hide Split;
    hide ProtectedCids;
    while i < |parts|
      invariant 0 <= i <= |parts|
      invariant ParseEntries(parts) == Prepend(cids, ParseEntries(parts[i..]))
    {
      NextEntry(parts, i, cids);
      var entry := Strip(parts[i]);
      if !IsVmCid(entry) { return None; }
      cids := cids + [entry];
      i := i + 1;
    }
    NoEntries(parts, cids);
    return Some(cids);
  }

  function Prepend(cids: seq<string>, rest: Option<seq<string>>): Option<seq<string>> {
    match rest
    case None => None
    case Some(r) => Some(cids + r)
  }

  lemma AllEntries(parts: seq<string>)
    ensures ParseEntries(parts) == Prepend([], ParseEntries(parts[0..]))
  {
    assert parts[0..] == parts;
    var all := ParseEntries(parts);
    if all.Some? { assert [] + all.value == all.value; }
  }

  lemma NoEntries(parts: seq<string>, cids: seq<string>)
    ensures Prepend(cids, ParseEntries(parts[|parts|..])) == Some(cids)
  {
    assert cids + [] == cids;
  }

  lemma NextEntry(parts: seq<string>, i: nat, cids: seq<string>)
    requires i < |parts|
    ensures Prepend(cids, ParseEntries(parts[i..]))
         == if IsVmCid(Strip(parts[i])) then Prepend(cids + [Strip(parts[i])], ParseEntries(parts[i + 1..])) else None
  {
    hide Strip;
    hide IsVmCid;
    var rest := ParseEntries(parts[i + 1..]);
    assert parts[i..][0] == parts[i] && parts[i..][1..] == parts[i + 1..];
    if rest.Some? { assert cids + ([Strip(parts[i])] + rest.value) == cids + [Strip(parts[i])] + rest.value; }
  }

  lemma {:induction false} EntriesIff(parts: seq<string>)
    ensures ParseEntries(parts).Some? <==> forall i | 0 <= i < |parts| :: IsVmCid(Strip(parts[i]))
    ensures ParseEntries(parts).Some? ==>
      |ParseEntries(parts).value| == |parts| && forall i | 0 <= i < |parts| :: ParseEntries(parts).value[i] == Strip(parts[i])
  {
    hide Strip;
    hide IsVmCid;
    if parts == [] {
    } else {
      var rest := parts[1..];
      EntriesIff(rest);
      assert forall i | 0 <= i < |rest| :: rest[i] == parts[i + 1];
      assert (forall i | 0 <= i < |rest| :: IsVmCid(Strip(rest[i])))
        <==> (forall i | 1 <= i < |parts| :: IsVmCid(Strip(parts[i]))) by {
        forall i | 1 <= i < |parts| ensures parts[i] == rest[i - 1] { }
      }
    }
  }

  /** A deny list is read back entry by entry, with blanks around entries dropped,
      exactly when every entry is a VMID; one bad entry, an empty one or a trailing
      comma included, makes the whole variable unusable. */
  lemma DenyListExact(parts: seq<string>)
    requires parts != [] && (forall i | 0 <= i < |parts| :: ',' !in parts[i])
    requires Strip(Join(parts, ',')) != ""
    ensures var r := ProtectedCids(Join(parts, ','));
      && (r.Some? <==> forall i | 0 <= i < |parts| :: IsVmCid(Strip(parts[i])))
      && (r.Some? ==> |r.value| == |parts| && forall i | 0 <= i < |parts| :: r.value[i] == Strip(parts[i]))
  {
    SplitJoin(parts, ',');
    EntriesIff(parts);
  }
}
