/** The members of the decrypted payload: the listing restore accepts, and that it accepts every
    listing export writes under the same limits (internal/backup/decode.go, export.go, paths.go). */
module Members {
  import opened Envelope

  /** One entry of the payload's directory. `special` marks symbolic links and directories. */
  datatype Member = Member(name: string, size: nat, special: bool)

  const MANIFEST := "manifest.json"
  const DATABASE := "database.sqlite3"
  const CONFIG := "config.json"
  const BLOBS := "blobs/"

  /** The slash-separated parts of a name. */
  function Parts(name: string): (parts: seq<string>)
    ensures |parts| > 0
  {
    if name == "" then [""]
    else
      var rest := Parts(name[1..]);
      if name[0] == '/' then [""] + rest else [[name[0]] + rest[0]] + rest[1..]
  }

  predicate ValidArchiveName(name: string, max: int) {
    && name != "" && |name| <= max
    && '\0' !in name && '\\' !in name
    && forall part :: part in Parts(name) ==> part != "" && part != "." && part != ".."
  }

  // ----- accepted names stay inside

  /** The parts with slashes between them. */
  function Joined(parts: seq<string>): string
    requires parts != []
  {
    if |parts| == 1 then parts[0] else parts[0] + "/" + Joined(parts[1..])
  }

  /** The parts of a name are what its slashes separate. */
  lemma {:induction false} PartsAreBetweenSlashes(name: string)
    ensures Joined(Parts(name)) == name
    ensures forall k :: 0 <= k < |Parts(name)| ==> '/' !in Parts(name)[k]
  {
    if name != "" {
      PartsAreBetweenSlashes(name[1..]);
      var rest := Parts(name[1..]);
      assert name == [name[0]] + name[1..];
      if name[0] == '/' {
        assert ([""] + rest)[1..] == rest;
        assert "" + "/" + name[1..] == name;
      } else {
        var parts := [[name[0]] + rest[0]] + rest[1..];
        assert parts[1..] == rest[1..];
        if |rest| > 1 {
          assert Joined(parts) == [name[0]] + rest[0] + "/" + Joined(rest[1..]);
          assert [name[0]] + rest[0] + "/" + Joined(rest[1..]) == [name[0]] + (rest[0] + "/" + Joined(rest[1..]));
        }
      }
    }
  }

  /** Where a walk from the root along some parts of a path ends; None once it has left the root. */
  function Walked(parts: seq<string>): Bytes.Option<seq<string>> {
    if parts == [] then Bytes.Some([])
    else
      match Walked(parts[..|parts| - 1])
      case None => Bytes.None
      case Some(place) =>
        var part := parts[|parts| - 1];
        if part == "" || part == "." then Bytes.Some(place)
        else if part != ".." then Bytes.Some(place + [part])
        else if place == [] then Bytes.None
        else Bytes.Some(place[..|place| - 1])
  }

  lemma {:induction false} PlainPartsAreTheirPlace(parts: seq<string>)
    requires forall k :: 0 <= k < |parts| ==> parts[k] != "" && parts[k] != "." && parts[k] != ".."
    ensures Walked(parts) == Bytes.Some(parts)
  {
    if parts != [] {
      PlainPartsAreTheirPlace(parts[..|parts| - 1]);
      assert parts == parts[..|parts| - 1] + [parts[|parts| - 1]];
    }
  }

  /** A walk along an accepted name goes one part deeper at each step: it never leaves the root, and no two
      accepted names lead to one place. */
  lemma AcceptedNamesStayInside(name: string, max: int, k: nat)
    requires ValidArchiveName(name, max) && k <= |Parts(name)|
    ensures Walked(Parts(name)[..k]) == Bytes.Some(Parts(name)[..k])
    ensures Joined(Parts(name)) == name
  {
    PartsAreBetweenSlashes(name);
    hide Parts;
    var parts := Parts(name)[..k];
    assert forall i :: 0 <= i < |parts| ==> parts[i] in Parts(name);
    PlainPartsAreTheirPlace(parts);
  }

  predicate Permitted(name: string) {
    name == MANIFEST || name == DATABASE || name == CONFIG || BLOBS <= name
  }

  function TotalSize(members: seq<Member>): nat {
    if members == [] then 0 else TotalSize(members[..|members| - 1]) + members[|members| - 1].size
  }

  /** The directory restore accepts. */
  predicate Accepted(members: seq<Member>, limits: Limits) {
    2 <= |members| <= limits.maxBlobs + 3 && Sound(members, limits)
  }

  /** Every member is permitted, no name occurs twice, and the sizes fit together. */
  predicate Sound(members: seq<Member>, limits: Limits) {
    && (forall i :: 0 <= i < |members| ==> MemberOk(members[i], limits))
    && (forall i, j :: 0 <= i < j < |members| ==> members[i].name != members[j].name)
    && TotalSize(members) <= limits.maxPlaintextBytes
  }

  predicate MemberOk(member: Member, limits: Limits) {
    ValidArchiveName(member.name, limits.maxPathBytes) && Permitted(member.name) && !member.special
  }

  predicate Listed(members: seq<Member>, name: string) {
    exists k :: 0 <= k < |members| && members[k].name == name
  }

  /** One more member keeps a directory sound under exactly these conditions. */
  lemma SoundSnoc(members: seq<Member>, last: Member, limits: Limits)
    ensures TotalSize(members + [last]) == TotalSize(members) + last.size
    ensures Sound(members + [last], limits)
        <==> && Sound(members, limits) && MemberOk(last, limits) && !Listed(members, last.name)
             && TotalSize(members) + last.size <= limits.maxPlaintextBytes
  {
    hide MemberOk;
    var all := members + [last];
    assert all[..|all| - 1] == members && all[|members|] == last;
    assert forall i :: 0 <= i < |members| ==> all[i] == members[i];
  }

  lemma {:induction false} SoundPrefix(members: seq<Member>, k: nat, limits: Limits)
    requires k <= |members| && Sound(members, limits)
    ensures Sound(members[..k], limits)
    decreases |members|
  {
    if k < |members| {
      var front := members[..|members| - 1];
      assert members == front + [members[|members| - 1]];
      SoundSnoc(front, members[|members| - 1], limits);
      SoundPrefix(front, k, limits);
      assert front[..k] == members[..k];
    } else {
      assert members[..k] == members;
    }
  }

  /** The check of the directory, one entry at a time, stopping at the first bad one. */
  method ValidatePayloadEntries(members: seq<Member>, limits: Limits) returns (ok: bool, entries: map<string, Member>)
    requires limits.Valid()
    ensures ok <==> Accepted(members, limits)
    ensures ok ==> forall name :: name in entries <==> Listed(members, name)
    ensures ok ==> forall name :: name in entries ==> entries[name] in members && entries[name].name == name
  {
    hide Sound, TotalSize, ValidArchiveName;
    entries := map[];
    if |members| < 2 || |members| > limits.maxBlobs + 3 {
      return false, entries;
    }
    var declared := 0;
    EmptySound(limits);
    assert members[..0] == [];
    for i := 0 to |members|
      invariant Sound(members[..i], limits)
      invariant declared == TotalSize(members[..i]) <= limits.maxPlaintextBytes
      invariant forall name :: name in entries <==> Listed(members[..i], name)
      invariant forall name :: name in entries ==> entries[name] in members && entries[name].name == name
    {
      var member := members[i];
      SoundSnoc(members[..i], member, limits);
      assert members[..i + 1] == members[..i] + [member];
      if Accepted(members, limits) {
        SoundPrefix(members, i + 1, limits);
      }
      if !ValidArchiveName(member.name, limits.maxPathBytes) || member.name in entries || !Permitted(member.name)
          || member.special {
        return false, entries;
      }
      if member.size > limits.maxPlaintextBytes || declared > limits.maxPlaintextBytes - member.size {
        return false, entries;
      }
      ListedSnoc(members[..i], member);
      declared := declared + member.size;
      entries := entries[member.name := member];
    }
    assert members[..|members|] == members;
    return true, entries;
  }

  lemma EmptySound(limits: Limits)
    requires limits.Valid()
    ensures Sound([], limits) && TotalSize([]) == 0
  {
  }

  lemma ListedSnoc(members: seq<Member>, last: Member)
    ensures forall name :: Listed(members + [last], name) <==> Listed(members, name) || name == last.name
  {
    var all := members + [last];
    forall name
      ensures Listed(all, name) <==> Listed(members, name) || name == last.name
    {
      if Listed(members, name) {
        var k :| 0 <= k < |members| && members[k].name == name;
        assert all[k].name == name;
      }
      assert all[|members|] == last;
    }
  }

  // ----- what export lists

  /** The names and sizes of an export: the manifest and database always, a config when there is one,
      and blobs under their own directory. */
  function ExportMembers(manifestSize: nat, databaseSize: nat, config: Bytes.Option<nat>,
      blobs: seq<(string, nat)>): seq<Member> {
    [Member(MANIFEST, manifestSize, false), Member(DATABASE, databaseSize, false)]
    + (if config.Some? then [Member(CONFIG, config.value, false)] else [])
    + seq(|blobs|, i requires 0 <= i < |blobs| => Member(BLOBS + blobs[i].0, blobs[i].1, false))
  }

  /** What collectBlobs and Manifest.Validate have checked of an export before anything is written. */
  predicate ManifestValid(config: Bytes.Option<nat>, blobs: seq<(string, nat)>, limits: Limits) {
    && ValidArchiveName(DATABASE, limits.maxPathBytes)
    && (config.Some? ==> ValidArchiveName(CONFIG, limits.maxPathBytes))
    && |blobs| <= limits.maxBlobs
    && (forall i :: 0 <= i < |blobs| ==> ValidArchiveName(BLOBS + blobs[i].0, limits.maxPathBytes))
    && (forall i, j :: 0 <= i < j < |blobs| ==> blobs[i].0 != blobs[j].0)
  }

  /** Members are stored uncompressed, so a payload within the plaintext limit holds members within it;
      then the listing of any valid manifest is accepted under the same limits. */
  lemma RestoreAcceptsExportedMembers(manifestSize: nat, databaseSize: nat, config: Bytes.Option<nat>,
      blobs: seq<(string, nat)>, payloadBytes: nat, limits: Limits)
    requires limits.Valid() && ManifestValid(config, blobs, limits)
    requires TotalSize(ExportMembers(manifestSize, databaseSize, config, blobs)) <= payloadBytes
    requires payloadBytes <= limits.maxPlaintextBytes
    ensures Accepted(ExportMembers(manifestSize, databaseSize, config, blobs), limits)
  {
    hide TotalSize, ValidArchiveName;
    var members := ExportMembers(manifestSize, databaseSize, config, blobs);
    ManifestNameFits(limits.maxPathBytes);
    var first := if config.Some? then 3 else 2;
    assert forall k :: first <= k < |members| ==>
        members[k] == Member(BLOBS + blobs[k - first].0, blobs[k - first].1, false);
    forall i, j | 0 <= i < j < |members|
      ensures members[i].name != members[j].name
    {
      if first <= i {
        assert members[i].name[|BLOBS|..] == blobs[i - first].0;
        assert members[j].name[|BLOBS|..] == blobs[j - first].0;
      } else if first <= j {
        assert members[j].name[0] == 'b' && members[i].name[0] != 'b';
      }
    }
  }

  lemma {:induction false} OnePart(name: string)
    requires '/' !in name
    ensures Parts(name) == [name]
  {
    if name != "" {
      OnePart(name[1..]);
      assert name == [name[0]] + name[1..];
    }
  }

  lemma ManifestNameFits(max: int)
    requires ValidArchiveName(DATABASE, max)
    ensures ValidArchiveName(MANIFEST, max)
  {
    hide Parts;
    OnePart(MANIFEST);
  }
}
