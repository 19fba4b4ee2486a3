/** VM CIDs (scripts/_vmcid.py): a bare VMID, or a VMID with a cluster stamp and a
    per-VM token. */
module VmCid {
  import opened Text

  datatype Cid = Cid(vmid: nat, cluster: string, token: string)

  const STAMP_LEN := 8
  const UNKNOWN_CLUSTER := "00000000"
  const MAX_VMID := 0x7fff_ffff_ffff_ffff

  predicate IsHex(c: char) { IsDigit(c) || 'a' <= c <= 'f' }

  /** Exactly eight lowercase hexadecimal characters. */
  predicate IsStamp(v: string) { |v| == STAMP_LEN && forall i | 0 <= i < |v| :: IsHex(v[i]) }

  predicate Stamped(c: Cid) { c.cluster != "" || c.token != "" }

  function PathId(c: Cid): string { Decimal(c.vmid) }

  predicate KnownCluster(c: Cid) { Stamped(c) && c.cluster != UNKNOWN_CLUSTER }

  function Print(c: Cid): string {
    if !Stamped(c) then PathId(c) else Decimal(c.vmid) + "-" + c.cluster + "-" + c.token
  }

  function ParseVmid(text: string): Option<nat> {
    if text == "" || !AllDigits(text) || text[0] == '0' || DecimalValue(text) > MAX_VMID then None
    else Some(DecimalValue(text))
  }

  function Parse(raw: string): Option<Cid> {
    if raw == "" then None
    else
      var parts := Split(raw, '-');
      if |parts| == 1 then
        match ParseVmid(parts[0])
        case None => None
        case Some(vmid) => Some(Cid(vmid, "", ""))
      else if |parts| == 3 then
        match ParseVmid(parts[0])
        case None => None
        case Some(vmid) => if !IsStamp(parts[1]) || !IsStamp(parts[2]) then None else Some(Cid(vmid, parts[1], parts[2]))
      else None
  }

  function WithToken(c: Cid, token: string): Option<Cid> {
    if !Stamped(c) || !IsStamp(token) then None else Some(c.(token := token))
  }

  /** as_path_id of a string. */
  function AsPathId(value: string): string {
    var text := Strip(value);
    match Parse(text)
    case None => text
    case Some(c) => PathId(c)
  }

  /** The CIDs the CPI hands out. */
  predicate Valid(c: Cid) {
    1 <= c.vmid <= MAX_VMID && ((c.cluster == "" && c.token == "") || (IsStamp(c.cluster) && IsStamp(c.token)))
  }

  lemma VmidPrinted(n: nat)
    requires 1 <= n <= MAX_VMID
    ensures ParseVmid(Decimal(n)) == Some(n) && '-' !in Decimal(n)
  {
    ValueOfDecimal(n);
  }

  lemma StampHasNoDash(v: string)
    requires IsStamp(v)
    ensures '-' !in v
  {
  }

  lemma JoinThree(parts: seq<string>)
    requires |parts| == 3
    ensures Join(parts, '-') == parts[0] + "-" + parts[1] + "-" + parts[2]
  {
    assert |parts[1..]| == 2 && |parts[1..][1..]| == 1 && parts[1..][1..][0] == parts[2];
    assert Join(parts[1..][1..], '-') == parts[2];
    assert Join(parts[1..], '-') == parts[1] + "-" + parts[2];
  }

  /** A printed CID is three parts joined with dashes, or one. */
  lemma PrintedParts(c: Cid)
    requires Valid(c)
    ensures Split(Print(c), '-') == if Stamped(c) then [Decimal(c.vmid), c.cluster, c.token] else [Decimal(c.vmid)]
  {
    VmidPrinted(c.vmid);
    if Stamped(c) {
      StampHasNoDash(c.cluster);
      StampHasNoDash(c.token);
      var parts := [Decimal(c.vmid), c.cluster, c.token];
      JoinThree(parts);
      SplitJoin(parts, '-');
    } else {
      SplitWord(Decimal(c.vmid), [], '-');
    }
  }

  /** Parsing a printed CID gives it back. */
  lemma ParsePrint(c: Cid)
    requires Valid(c)
    ensures Parse(Print(c)) == Some(c)
  {
    PrintedParts(c);
    VmidPrinted(c.vmid);
    assert Print(c) != "";
    hide Split;
    hide Print;
    hide Decimal;
  }

  /** Whatever parses is a valid CID, and printing it gives the text back. */
  lemma PrintParse(raw: string)
    requires Parse(raw).Some?
    ensures Valid(Parse(raw).value) && Print(Parse(raw).value) == raw
  {
    var parts := Split(raw, '-');
    JoinSplit(raw, '-');
    DecimalOfValue(parts[0]);
    if |parts| == 3 {
      JoinThree(parts);
    }
  }

  /** The CPI accepts exactly the printed forms of valid CIDs. */
  lemma ParseIff(raw: string)
    ensures Parse(raw).Some? <==> exists c :: Valid(c) && Print(c) == raw
  {
    if Parse(raw).Some? { PrintParse(raw); }
    if c :| Valid(c) && Print(c) == raw { ParsePrint(c); }
  }

  /** Replacing the token keeps the VMID and the cluster through a round trip, and
      is possible exactly for a stamped CID and a proper token. */
  lemma WithTokenRoundTrip(c: Cid, token: string)
    requires Valid(c)
    ensures WithToken(c, token).Some? <==> Stamped(c) && IsStamp(token)
    ensures WithToken(c, token).Some? ==> Parse(Print(WithToken(c, token).value)) == Some(Cid(c.vmid, c.cluster, token))
  {
    if WithToken(c, token).Some? { ParsePrint(WithToken(c, token).value); }
  }

  /** Taking the path id of a path id changes nothing. */
  lemma AsPathIdIdempotent(value: string)
    ensures AsPathId(AsPathId(value)) == AsPathId(value)
  {
    var text := Strip(value);
    var id := AsPathId(value);
    if Parse(text).Some? {
      PrintParse(text);
      var c := Cid(Parse(text).value.vmid, "", "");
      ParsePrint(c);
      assert Print(c) == id;
      assert Stripped(id) by { assert IsDigit(id[0]) && IsDigit(id[|id| - 1]); }
      StripStripped(id);
    } else {
      StripStripped(text);
    }
  }
}
