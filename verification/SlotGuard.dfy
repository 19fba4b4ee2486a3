/** The Director slot guard (scripts/_slot.py): which states a destructive command
    may act on, and what the slot's owner record proves. */
module SlotGuard {
  import opened Text

  // ------------------------------------------------------------- state files

  /** A value of a parsed JSON file. `shown` is what str() gives for it and
      `truthy` what bool() gives, where that does not follow from the rest. An
      object is known by its "cid" field, which is Null when it has none. */
  datatype Value =
    | Null
    | Text(s: string)
    | Scalar(shown: string, truthy: bool)
    | List(items: seq<Value>, shown: string)
    | Object(cid: Value, shown: string, truthy: bool)

  /** The fields of a create-env state that the guard reads, Null when absent, and
      whether any other field has a truthy value. */
  datatype Fields = Fields(
    directorId: Value, vmCid: Value, diskId: Value, disks: Value, stemcells: Value, otherTruthy: bool)

  /** A create-env state file as the guard finds it. An absent file and an empty
      one both parse to no fields. */
  datatype StateFile = Unreadable | Parsed(fields: Fields)

  /** _text: "" for null, else the stripped text of the value. */
  function TextOf(v: Value): (r: string)
    ensures Stripped(r)
  {
    match v
    case Null => ""
    case Text(s) => Strip(s)
    case _ => Strip(v.shown)
  }

  predicate Truthy(v: Value) {
    match v
    case Null => false
    case Text(s) => s != ""
    case List(items, _) => items != []
    case _ => v.truthy
  }

  /** state_is_empty */
  predicate IsEmpty(f: Fields) {
    !Truthy(f.directorId) && !Truthy(f.vmCid) && !Truthy(f.diskId) && !Truthy(f.disks) && !Truthy(f.stemcells)
    && !f.otherTruthy
  }

  /** The cids of a disks or stemcells list, before they are sorted. */
  function EntryCids(v: Value): set<string> {
    if v.List? then (set e | e in v.items && e.Object? :: TextOf(e.cid)) - {""} else {}
  }

  /** What a state names: its Director, VM, disks and stemcells. */
  datatype Identity = Identity(directorId: string, vmCid: string, diskId: string, diskCids: seq<string>, stemcellCids: seq<string>)

  /** state_identity */
  function IdentityOf(f: Fields): Identity {
    Identity(TextOf(f.directorId), TextOf(f.vmCid), TextOf(f.diskId), Sorted(EntryCids(f.disks)), Sorted(EntryCids(f.stemcells)))
  }

  // ------------------------------------------------------------ owner record

  /** The fields of slot-owner.json that the guard reads, Null when absent. */
  datatype OwnerRecord = OwnerRecord(directorId: Value, vmCid: Value, diskId: Value, diskCids: Value, stemcellCids: Value)

  datatype OwnerFile = NoOwner | BadOwner | Owner(record: OwnerRecord)

  function Texts(cids: seq<string>): Value {
    List(seq(|cids|, i requires 0 <= i < |cids| => Text(cids[i])), "")
  }

  /** The record write_owner writes for an identity, as it reads back from JSON. */
  function RecordOf(id: Identity): OwnerRecord {
    OwnerRecord(Text(id.directorId), Text(id.vmCid), Text(id.diskId), Texts(id.diskCids), Texts(id.stemcellCids))
  }

  function RecordCids(v: Value): set<string> {
    if v.List? then (set x | x in v.items :: TextOf(x)) - {""} else {}
  }

  /** _owner_identity */
  function OwnerIdentity(r: OwnerRecord): Identity {
    Identity(TextOf(r.directorId), TextOf(r.vmCid), TextOf(r.diskId), Sorted(RecordCids(r.diskCids)), Sorted(RecordCids(r.stemcellCids)))
  }

  // -------------------------------------------------------------- the guard

  /** The public certificates of a creds.yml, as digests. */
  datatype CredsFile = NoCreds | BadCreds | Creds(digests: set<string>)

  /** A protected Director's slot: its state, its creds, and whether the guarded
      slot resolves to the same place. */
  datatype Protected = Protected(state: StateFile, creds: CredsFile, sameLocation: bool)

  /** Everything one run of the guard reads. */
  datatype World = World(
    isDefault: bool,               // the slot is this checkout's default slot
    checkoutDefault: bool,         // the slot's directory is some checkout's default slot
    protectedStates: seq<Protected>,
    deniedVar: string,             // BOSH_PROTECTED_DIRECTOR_CIDS
    state: StateFile,
    owner: OwnerFile,
    creds: CredsFile)

  datatype Conflict = UnreadableState(path: nat) | ListedVm | SameVm(path: nat) | Shared(path: nat)

  datatype Reason =
    | DefaultSlot
    | CheckoutSlot
    | ProtectedPath(path: nat)
    | BadDenyList
    | EmptyDenyList
    | UnreadableSlotState
    | Conflicting(conflict: Conflict)
    | NoOwnerRecord
    | OtherOwner
    | CredsUnreadable
    | CredsCopied(path: nat)

  /** [1-9][0-9]* */
  predicate IsVmCid(s: string) { s != "" && AllDigits(s) && s[0] != '0' }

  /** The trimmed entries, or None when one of them is not a VMID. */
  function ParseEntries(parts: seq<string>): Option<seq<string>> {
    if parts == [] then Some([])
    else if !IsVmCid(Strip(parts[0])) then None
    else
      match ParseEntries(parts[1..])
      case None => None
      case Some(rest) => Some([Strip(parts[0])] + rest)
  }

  /** protected_cids: the VMIDs a comma-separated variable lists, or None. */
  function ProtectedCids(raw: string): Option<seq<string>> {
    if Strip(raw) == "" then Some([]) else ParseEntries(Split(raw, ','))
  }

  /** The first protected state the slot resolves to, from `from` on. */
  function FirstPath(ps: seq<Protected>, from: nat): Option<nat>
    decreases |ps| - from
  {
    if from >= |ps| then None
    else if ps[from].sameLocation then Some(from)
    else FirstPath(ps, from + 1)
  }

  /** _location_reason */
  function LocationReason(w: World): Option<Reason> {
    if w.checkoutDefault then Some(CheckoutSlot)
    else
      match FirstPath(w.protectedStates, 0)
      case None => None
      case Some(i) => Some(ProtectedPath(i))
  }

  function FirstUnreadable(ps: seq<Protected>, from: nat): Option<nat>
    decreases |ps| - from
  {
    if from >= |ps| then None
    else if ps[from].state.Unreadable? then Some(from)
    else FirstUnreadable(ps, from + 1)
  }

  /** The first protected state that records this VM. */
  function FirstSameVm(ps: seq<Protected>, cid: string, from: nat): Option<nat>
    decreases |ps| - from
  {
    if from >= |ps| then None
    else if ps[from].state.Parsed? && TextOf(ps[from].state.fields.vmCid) == cid then Some(from)
    else FirstSameVm(ps, cid, from + 1)
  }

  predicate SharesWith(mine: Identity, other: Identity) {
    || (mine.directorId != "" && mine.directorId == other.directorId)
    || (exists d :: d in mine.diskCids && d in other.diskCids)
  }

  function FirstShared(ps: seq<Protected>, mine: Identity, from: nat): Option<nat>
    decreases |ps| - from
  {
    if from >= |ps| then None
    else if ps[from].state.Parsed? && SharesWith(mine, IdentityOf(ps[from].state.fields)) then Some(from)
    else FirstShared(ps, mine, from + 1)
  }

  /** _conflict */
  function ConflictOf(ps: seq<Protected>, listed: seq<string>, f: Fields): Option<Conflict> {
    var mine := IdentityOf(f);
    if FirstUnreadable(ps, 0).Some? then Some(UnreadableState(FirstUnreadable(ps, 0).value))
    else if mine.vmCid != "" && mine.vmCid in listed then Some(ListedVm)
    else if mine.vmCid != "" && FirstSameVm(ps, mine.vmCid, 0).Some? then Some(SameVm(FirstSameVm(ps, mine.vmCid, 0).value))
    else if FirstShared(ps, mine, 0).Some? then Some(Shared(FirstShared(ps, mine, 0).value))
    else None
  }

  /** The first protected creds.yml that cannot be read or shares a certificate. */
  function FirstCreds(ps: seq<Protected>, mine: set<string>, from: nat): Option<Reason>
    decreases |ps| - from
  {
    if from >= |ps| then None
    else if ps[from].creds.BadCreds? then Some(CredsUnreadable)
    else if ps[from].creds.Creds? && ps[from].creds.digests * mine != {} then Some(CredsCopied(from))
    else FirstCreds(ps, mine, from + 1)
  }

  /** _creds_copy_reason */
  function CredsReason(w: World): Option<Reason> {
    match w.creds
    case BadCreds => Some(CredsUnreadable)
    case NoCreds => None
    case Creds(digests) => if digests == {} then None else FirstCreds(w.protectedStates, digests, 0)
  }

  /** The owner record's part of the guard. */
  function OwnerReason(w: World, f: Fields): Option<Reason> {
    if IsEmpty(f) then None
    else if !w.owner.Owner? then Some(NoOwnerRecord)
    else if OwnerIdentity(w.owner.record) != IdentityOf(f) then Some(OtherOwner)
    else None
  }

  /** refusal_reason */
  function RefusalReason(w: World, requireDenyList: bool): Option<Reason> {
    if w.isDefault then Some(DefaultSlot)
    else if LocationReason(w).Some? then LocationReason(w)
    else
      match ProtectedCids(w.deniedVar)
      case None => Some(BadDenyList)
      case Some(listed) =>
        if requireDenyList && listed == [] then Some(EmptyDenyList)
        else if w.state.Unreadable? then Some(UnreadableSlotState)
        else
          var conflict := ConflictOf(w.protectedStates, listed, w.state.fields);
          if conflict.Some? then Some(Conflicting(conflict.value))
          else if OwnerReason(w, w.state.fields).Some? then OwnerReason(w, w.state.fields)
          else CredsReason(w)
  }

  /** write_owner: the record it writes, if it writes one. */
  datatype Recording = Wrote(record: OwnerRecord) | Skipped | RefusedToRecord | Failed

  function RecordOwner(w: World): Recording {
    if w.isDefault then Skipped
    else if w.state.Unreadable? then Failed
    else if IsEmpty(w.state.fields) then Skipped
    else if LocationReason(w).Some? then RefusedToRecord
    else
      match ProtectedCids(w.deniedVar)
      case None => Failed
      case Some(listed) =>
        if ConflictOf(w.protectedStates, listed, w.state.fields).Some? then RefusedToRecord
        else Wrote(RecordOf(IdentityOf(w.state.fields)))
  }

  // ------------------------------------------------------- what it means

  /** The state shares nothing with a protected Director. */
  predicate Separate(w: World, f: Fields) {
    var mine := IdentityOf(f);
    && !w.isDefault && !w.checkoutDefault
    && ProtectedCids(w.deniedVar).Some?
    && (mine.vmCid != "" ==> mine.vmCid !in ProtectedCids(w.deniedVar).value)
    && forall i | 0 <= i < |w.protectedStates| ::
         && !w.protectedStates[i].sameLocation && w.protectedStates[i].state.Parsed?
         && var other := IdentityOf(w.protectedStates[i].state.fields);
         && (mine.vmCid != "" ==> other.vmCid != mine.vmCid)
         && (mine.directorId != "" ==> other.directorId != mine.directorId)
         && (forall d | d in mine.diskCids :: d !in other.diskCids)
  }
}
