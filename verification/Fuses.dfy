/** The Electron fuse reader and writer of scripts/windows/fuses.py. */
module Fuses {
  import opened Accounts

  type Byte = n: int | 0 <= n < 256

  const SENTINEL_TEXT := "dL7pKGdnNz796PbbjQWNKmHXBZaB9tsX"
  const SENTINEL_LENGTH := 32

  function Sentinel(): (s: seq<Byte>)
    ensures |s| == SENTINEL_LENGTH
  {
    seq(SENTINEL_LENGTH, i requires 0 <= i < SENTINEL_LENGTH => (SENTINEL_TEXT[i] as int) % 256)
  }

  const FUSE_NAMES: seq<string> := [
    "RunAsNode", "EnableCookieEncryption", "EnableNodeOptionsEnvironmentVariable", "EnableNodeCliInspectArguments",
    "EnableEmbeddedAsarIntegrityValidation", "OnlyLoadAppFromAsar", "LoadBrowserProcessSpecificV8Snapshot",
    "GrantFileProtocolExtraPrivileges", "WasmTrapHandlers"]

  /** FUSE_INDEX. */
  function FuseIndex(name: string): (r: Option<nat>)
    ensures r.Some? ==> r.value < |FUSE_NAMES| && FUSE_NAMES[r.value] == name
    ensures r.None? ==> name !in FUSE_NAMES
  {
    FindName(name, FUSE_NAMES)
  }

  function FindName(name: string, names: seq<string>): (r: Option<nat>)
    ensures r.Some? ==> r.value < |names| && names[r.value] == name
    ensures r.None? ==> name !in names
  {
    if names == [] then None
    else if names[0] == name then Some(0)
    else
      var rest := FindName(name, names[1..]);
      if rest.None? then None else Some(rest.value + 1)
  }

  /** FUSE_VALUES. */
  function FuseByte(value: string): Option<Byte> {
    if value == "off" then Some(0x30)
    else if value == "on" then Some(0x31)
    else if value == "removed" then Some(0x72)
    else if value == "inherit" then Some(0x90)
    else None
  }

  /** BYTE_VALUES. */
  function ByteValue(b: Byte): Option<string> {
    if b == 0x30 then Some("off")
    else if b == 0x31 then Some("on")
    else if b == 0x72 then Some("removed")
    else if b == 0x90 then Some("inherit")
    else None
  }

  lemma ByteValueInverts(value: string, b: Byte)
    ensures FuseByte(value) == Some(b) <==> ByteValue(b) == Some(value)
  {
  }

  datatype Snapshot = Snapshot(schemaVersion: Byte, count: Byte, fuses: seq<string>, offset: nat)

  datatype Error =
    | UnknownFuse
    | UnknownValue
    | SentinelMissing
    | HeaderTruncated
    | UnsupportedSchema(version: Byte)
    | ImplausibleCount(count: Byte)
    | UnknownByte(b: Byte, index: nat)
    | BeyondCount(count: Byte)

  datatype Result<T> = Ok(value: T) | Err(error: Error)

  // ---- Finding the sentinel ----

  predicate SentinelAt(data: seq<Byte>, k: nat) {
    k + SENTINEL_LENGTH <= |data| && data[k..k + SENTINEL_LENGTH] == Sentinel()
  }

  /** bytes.find, from position `k`. */
  function FirstSentinel(data: seq<Byte>, k: nat): (r: Option<nat>)
    requires k <= |data|
    ensures r.Some? ==> k <= r.value && SentinelAt(data, r.value) && forall j :: k <= j < r.value ==> !SentinelAt(data, j)
    ensures r.None? ==> forall j :: k <= j <= |data| ==> !SentinelAt(data, j)
    decreases |data| - k
  {
    if SentinelAt(data, k) then Some(k)
    else if k == |data| then None
    else FirstSentinel(data, k + 1)
  }

  // ---- Reading ----

  /** The first byte without a meaning, if any. */
  function FirstUnknown(bytes: seq<Byte>): (r: Option<nat>)
    ensures r.Some? ==> r.value < |bytes| && ByteValue(bytes[r.value]).None?
    ensures forall i :: 0 <= i < (if r.Some? then r.value else |bytes|) ==> ByteValue(bytes[i]).Some?
  {
    if bytes == [] then None
    else if ByteValue(bytes[0]).None? then Some(0)
    else
      var rest := FirstUnknown(bytes[1..]);
      if rest.None? then None else Some(rest.value + 1)
  }

  /** What the bytes say, "" for a byte without a meaning. */
  ghost function Values(bytes: seq<Byte>): seq<string> {
    seq(|bytes|, i requires 0 <= i < |bytes| => if ByteValue(bytes[i]).Some? then ByteValue(bytes[i]).value else "")
  }

  ghost function Read(data: seq<Byte>): Result<Snapshot> {
    var sentinel := FirstSentinel(data, 0);
    if sentinel.None? then Err(SentinelMissing)
    else
      var header := sentinel.value + SENTINEL_LENGTH;
      if header + 2 > |data| then Err(HeaderTruncated)
      else
        var version, count, offset := data[header], data[header + 1], header + 2;
        if version != 1 then Err(UnsupportedSchema(version))
        else if count < 1 || count > 32 || offset + count > |data| then Err(ImplausibleCount(count))
        else
          var wire := data[offset..offset + count];
          var unknown := FirstUnknown(wire);
          if unknown.Some? then Err(UnknownByte(wire[unknown.value], unknown.value))
          else Ok(Snapshot(version, count, Values(wire), offset))
  }

  method ReadFuses(data: seq<Byte>) returns (r: Result<Snapshot>)
    ensures r == Read(data)
  {
    hide Sentinel, SentinelAt, FirstSentinel, FirstUnknown, ByteValue;
    var sentinel := FirstSentinel(data, 0);
    if sentinel.None? {
      return Err(SentinelMissing);
    }
    var header := sentinel.value + SENTINEL_LENGTH;
    if header + 2 > |data| {
      return Err(HeaderTruncated);
    }
    var version, count, offset := data[header], data[header + 1], header + 2;
    if version != 1 {
      return Err(UnsupportedSchema(version));
    }
    if count < 1 || count > 32 || offset + count > |data| {
      return Err(ImplausibleCount(count));
    }
    ghost var wire := data[offset..offset + count];
    var fuses: seq<string> := [];
    for index := 0 to count
      invariant |fuses| == index
      invariant forall i :: 0 <= i < index ==> ByteValue(wire[i]) == Some(fuses[i])
    {
      var value := ByteValue(data[offset + index]);
      if value.None? {
        return Err(UnknownByte(data[offset + index], index));
      }
      fuses := fuses + [value.value];
    }
    assert FirstUnknown(wire).None?;
    assert fuses == Values(wire);
    r := Ok(Snapshot(version, count, fuses, offset));
  }

  /** A file is readable exactly when the first sentinel is followed by schema version 1, a count of 1 to 32 and that
      many bytes with a meaning; each byte is read as the text that stands for it. */
  lemma ReadOkIff(data: seq<Byte>, k: nat)
    requires SentinelAt(data, k) && forall j :: 0 <= j < k ==> !SentinelAt(data, j)
    ensures Read(data).Ok? <==>
      && k + 34 <= |data| && data[k + 32] == 1 && 1 <= data[k + 33] <= 32 && k + 34 + data[k + 33] <= |data|
      && forall i :: k + 34 <= i < k + 34 + data[k + 33] ==> data[i] in {0x30, 0x31, 0x72, 0x90}
    ensures Read(data).Ok? ==>
      && |Read(data).value.fuses| == Read(data).value.count == data[k + 33]
      && Read(data).value.offset == k + 34
      && forall i :: 0 <= i < data[k + 33] ==>
           (Read(data).value.fuses[i], data[k + 34 + i]) in {("off", 0x30), ("on", 0x31), ("removed", 0x72), ("inherit", 0x90)}
  {
    hide Sentinel, SentinelAt, FirstSentinel, FirstUnknown;
    FirstAt(data, k);
    if k + 34 <= |data| && data[k + 32] == 1 && 1 <= data[k + 33] <= 32 && k + 34 + data[k + 33] <= |data| {
      var wire := data[k + 34..k + 34 + data[k + 33]];
      assert forall i :: 0 <= i < |wire| ==> wire[i] == data[k + 34 + i];
      assert forall i :: k + 34 <= i < k + 34 + data[k + 33] ==> data[i] == wire[i - (k + 34)];
    }
  }

  lemma FirstAt(data: seq<Byte>, k: nat)
    requires SentinelAt(data, k) && forall j :: 0 <= j < k ==> !SentinelAt(data, j)
    ensures FirstSentinel(data, 0) == Some(k)
  {
    hide Sentinel;
    assert k <= |data|;
  }

  /** Without a sentinel nothing is read; the sentinel is SENTINEL_TEXT, byte by byte. */
  lemma ReadNeedsSentinel(data: seq<Byte>)
    ensures Read(data) == Err(SentinelMissing) <==> forall k: nat :: !SentinelAt(data, k)
    ensures forall k: nat :: SentinelAt(data, k) <==>
      k + 32 <= |data| && forall i :: k <= i < k + 32 ==> data[i] == SENTINEL_TEXT[i - k] as int
  {
    hide FirstUnknown, ByteValue;
    forall k: nat
      ensures SentinelAt(data, k) <==>
        k + 32 <= |data| && forall i :: k <= i < k + 32 ==> data[i] == SENTINEL_TEXT[i - k] as int
    {
      SentinelIs(data, k);
    }
  }

  lemma SentinelIs(data: seq<Byte>, k: nat)
    ensures SentinelAt(data, k) <==>
      k + 32 <= |data| && forall i :: k <= i < k + 32 ==> data[i] == SENTINEL_TEXT[i - k] as int
  {
    hide Sentinel;
    SentinelBytes();
    if k + 32 <= |data| {
      SliceIs(data, k, Sentinel());
    }
  }

  lemma SentinelBytes()
    ensures forall i :: 0 <= i < 32 ==> Sentinel()[i] == SENTINEL_TEXT[i] as int
  {
  }

  lemma SliceIs(data: seq<Byte>, k: nat, text: seq<Byte>)
    requires k + |text| <= |data|
    ensures data[k..k + |text|] == text <==> forall i :: k <= i < k + |text| ==> data[i] == text[i - k]
  {
    var here := data[k..k + |text|];
    assert forall i :: 0 <= i < |text| ==> here[i] == data[k + i];
    assert forall i :: k <= i < k + |text| ==> data[i] == here[i - k];
  }

  // ---- Writing ----

  /** A byte written behind the sentinel's header can neither move the sentinel nor bring up an earlier one. */
  lemma WriteKeepsSentinel(data: seq<Byte>, k: nat, position: nat, b: Byte)
    requires FirstSentinel(data, 0) == Some(k)
    requires k + SENTINEL_LENGTH <= position < |data|
    ensures FirstSentinel(data[position := b], 0) == Some(k)
  {
    hide Sentinel;
    var after := data[position := b];
    forall j | 0 <= j <= k ensures SentinelAt(after, j) == SentinelAt(data, j) {
      assert after[j..j + SENTINEL_LENGTH] == data[j..j + SENTINEL_LENGTH];
    }
  }

  /** The round trip: reading back what was written gives the old snapshot with the one fuse changed. */
  lemma WriteThenRead(data: seq<Byte>, index: nat, value: string)
    requires Read(data).Ok? && index < Read(data).value.count && FuseByte(value).Some?
    ensures var snapshot := Read(data).value;
      && snapshot.offset + index < |data| && |snapshot.fuses| == snapshot.count
      && Read(data[snapshot.offset + index := FuseByte(value).value]) ==
           Ok(snapshot.(fuses := snapshot.fuses[index := value]))
  {
    hide Sentinel, FuseByte, ByteValue, FirstUnknown, Read, FirstSentinel, SentinelAt;
    ReadParts(data);
    var snapshot, b := Read(data).value, FuseByte(value).value;
    var after := data[snapshot.offset + index := b];
    WriteKeepsSentinel(data, FirstSentinel(data, 0).value, snapshot.offset + index, b);
    ByteValueInverts(value, b);
    var wire := data[snapshot.offset..snapshot.offset + snapshot.count];
    var wire' := after[snapshot.offset..snapshot.offset + snapshot.count];
    assert wire' == wire[index := b];
    assert FirstUnknown(wire').None?;
    assert Values(wire') == Values(wire)[index := value];
    ReadWhole(after, FirstSentinel(data, 0).value, snapshot.count);
  }

  /** What a successful read says about the file. */
  lemma ReadParts(data: seq<Byte>)
    requires Read(data).Ok?
    ensures var snapshot, k := Read(data).value, FirstSentinel(data, 0);
      && k.Some? && snapshot.offset == k.value + SENTINEL_LENGTH + 2
      && snapshot.offset + snapshot.count <= |data| && 1 <= snapshot.count <= 32
      && data[snapshot.offset - 2] == 1 && data[snapshot.offset - 1] == snapshot.count && snapshot.schemaVersion == 1
      && var wire := data[snapshot.offset..snapshot.offset + snapshot.count];
         && FirstUnknown(wire).None? && snapshot.fuses == Values(wire)
  {
    hide FirstSentinel, FirstUnknown, Values, SentinelAt, Sentinel, ByteValue;
  }

  lemma ReadWhole(data: seq<Byte>, k: nat, count: Byte)
    requires FirstSentinel(data, 0) == Some(k) && 1 <= count <= 32 && k + SENTINEL_LENGTH + 2 + count <= |data|
    requires data[k + SENTINEL_LENGTH] == 1 && data[k + SENTINEL_LENGTH + 1] == count
    requires FirstUnknown(data[k + SENTINEL_LENGTH + 2..k + SENTINEL_LENGTH + 2 + count]).None?
    ensures Read(data) == Ok(Snapshot(1, count, Values(data[k + SENTINEL_LENGTH + 2..k + SENTINEL_LENGTH + 2 + count]),
                                      k + SENTINEL_LENGTH + 2))
  {
    hide FirstSentinel, FirstUnknown, Values, SentinelAt, Sentinel, ByteValue;
  }

  class Binary {
    var contents: seq<Byte>

    constructor (contents: seq<Byte>)
      ensures this.contents == contents
    {
      this.contents := contents;
    }

    /** write_fuse: every error leaves the file alone; success changes one byte and so one fuse. */
    method WriteFuse(name: string, value: string) returns (r: Result<string>)
      modifies this
      ensures FuseIndex(name).None? ==> r == Err(UnknownFuse)
      ensures FuseIndex(name).Some? && FuseByte(value).None? ==> r == Err(UnknownValue)
      ensures FuseIndex(name).Some? && FuseByte(value).Some? ==>
        match Read(old(contents))
        case Err(e) => r == Err(e)
        case Ok(snapshot) =>
          var index := FuseIndex(name).value;
          if index >= snapshot.count then r == Err(BeyondCount(snapshot.count))
          else
            && |snapshot.fuses| == snapshot.count
            && r == Ok(snapshot.fuses[index])
            && Read(contents) == Ok(snapshot.(fuses := snapshot.fuses[index := value]))
            && |contents| == |old(contents)|
            && forall i :: 0 <= i < |contents| && i != snapshot.offset + index ==> contents[i] == old(contents)[i]
      ensures r.Err? ==> contents == old(contents)
    {
      hide FuseIndex, FuseByte, Read;
      var named, coded := FuseIndex(name), FuseByte(value);
      if named.None? {
        return Err(UnknownFuse);
      }
      if coded.None? {
        return Err(UnknownValue);
      }
      var read := ReadFuses(contents);
      if read.Err? {
        return Err(read.error);
      }
      var snapshot, index := read.value, named.value;
      if index >= snapshot.count {
        return Err(BeyondCount(snapshot.count));
      }
      WriteThenRead(contents, index, value);
      var previous := snapshot.fuses[index];
      if previous == value {
        assert snapshot.fuses[index := value] == snapshot.fuses;
        return Ok(previous);
      }
      var data := new Byte[|contents|](i requires 0 <= i < |contents| reads this => contents[i]);
      assert data[..] == contents;
      data[snapshot.offset + index] := coded.value;
      contents := data[..];
      r := Ok(previous);
    }
  }

  /** Writes to different fuses commute. */
  lemma WritesCommute(data: seq<Byte>, i: nat, v: string, j: nat, w: string)
    requires Read(data).Ok? && i < Read(data).value.count && j < Read(data).value.count && i != j
    requires FuseByte(v).Some? && FuseByte(w).Some?
    ensures var snapshot := Read(data).value;
      var first := data[snapshot.offset + i := FuseByte(v).value];
      var second := data[snapshot.offset + j := FuseByte(w).value];
      && Read(first[snapshot.offset + j := FuseByte(w).value]) == Read(second[snapshot.offset + i := FuseByte(v).value])
      && Read(first[snapshot.offset + j := FuseByte(w).value]) ==
           Ok(snapshot.(fuses := snapshot.fuses[i := v][j := w]))
  {
    hide FuseByte, Read;
    var snapshot := Read(data).value;
    WriteThenRead(data, i, v);
    WriteThenRead(data, j, w);
    var first := data[snapshot.offset + i := FuseByte(v).value];
    var second := data[snapshot.offset + j := FuseByte(w).value];
    WriteThenRead(first, j, w);
    WriteThenRead(second, i, v);
    assert first[snapshot.offset + j := FuseByte(w).value] == second[snapshot.offset + i := FuseByte(v).value];
  }
}
