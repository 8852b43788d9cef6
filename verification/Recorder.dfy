/** Failure artifacts: numbering, file names, and which recorded artifacts can be replayed. */
module Recorder {
  import opened Bytes
  import opened Codec
  import opened CodecLaws
  import CodecIo
  import opened WorkerSpec

  // ---- File names -------------------------------------------------------------------------

  const DIGITS: string := "0123456789"

  predicate AllDigits(s: string) {
    forall i | 0 <= i < |s| :: '0' <= s[i] <= '9'
  }

  /** std::to_string. */
  function Decimal(n: nat): (s: string)
    ensures s != [] && AllDigits(s)
  {
    if n < 10 then [DIGITS[n]] else Decimal(n / 10) + [DIGITS[n % 10]]
  }

  function Undecimal(s: string): nat
    requires AllDigits(s)
  {
    if s == [] then 0 else 10 * Undecimal(s[..|s| - 1]) + (s[|s| - 1] - '0') as nat
  }

  lemma {:induction false} DecimalRoundTrip(n: nat)
    ensures Undecimal(Decimal(n)) == n
  {
    var s := Decimal(n);
    if n < 10 {
      assert s[..|s| - 1] == [] && s[|s| - 1] == DIGITS[n];
    } else {
      DecimalRoundTrip(n / 10);
      assert s[..|s| - 1] == Decimal(n / 10) && s[|s| - 1] == DIGITS[n % 10];
    }
  }

  /** isolated_status_name. */
  function KindName(status: Status): string {
    match status
    case OkStatus => "ok"
    case Exception => "exception"
    case Crash => "crash"
    case Timeout => "timeout"
    case ProtocolError => "protocol_error"
    case IpcError => "ipc_error"
    case InternalError => "internal_error"
  }

  function ArtifactPath(kind: string, id: nat): string {
    "bin/" + kind + "_" + Decimal(id) + ".args"
  }

  /** Two artifacts share a file name only if they share the record id: the digits behind the last underscore give it
      back. */
  lemma ArtifactPathInjective(kind: string, id: nat, kind': string, id': nat)
    requires ArtifactPath(kind, id) == ArtifactPath(kind', id')
    ensures id == id' && kind == kind'
  {
    var a, b := "bin/" + kind + "_", "bin/" + kind' + "_";
    var d, d' := Decimal(id), Decimal(id');
    SameTail(a + d, b + d', ".args");
    DigitsBehindUnderscore(a, d, b, d');
    DecimalRoundTrip(id);
    DecimalRoundTrip(id');
    assert kind == a[4..|a| - 1] && kind' == b[4..|b| - 1];
  }

  lemma SameTail(a: string, b: string, tail: string)
    requires a + tail == b + tail
    ensures a == b
  {
    assert |a| == |b|;
    assert a == (a + tail)[..|a|] && b == (b + tail)[..|b|];
  }

  lemma DigitsBehindUnderscore(a: string, d: string, b: string, d': string)
    requires a + d == b + d' && a != [] && b != [] && a[|a| - 1] == '_' == b[|b| - 1]
    requires AllDigits(d) && AllDigits(d')
    ensures a == b && d == d'
  {
    var s := a + d;
    if |a| < |b| {
      LastIsDigit(a, d, b, d');
    } else if |b| < |a| {
      LastIsDigit(b, d', a, d);
    }
    assert a == s[..|a|] && b == s[..|b|] && d == s[|a|..] && d' == s[|b|..];
  }

  lemma LastIsDigit(a: string, d: string, b: string, d': string)
    requires a + d == b + d' && |a| < |b| && AllDigits(d)
    ensures '0' <= b[|b| - 1] <= '9'
  {
    assert (a + d)[|b| - 1] == d[|b| - 1 - |a|];
    assert (b + d')[|b| - 1] == b[|b| - 1];
  }

  // ---- The recorder -----------------------------------------------------------------------

  /** The text of an entry: the result's message, the name of a signal, or the name of the kind. */
  datatype Note = Said(message: Message) | SignalName(sig: nat) | NameOf(status: Status)

  datatype Entry = Entry(recordId: nat, taskId: nat, kind: string, note: Note, path: string)

  /** How the file system takes one record: the artifact cannot be opened; or the write fails, after a beginning of the
      encoding; or the write succeeds into the stream's buffer, of which `arrived` bytes reach the disk by the time the
      stream is closed, and the JSON file can be opened or not. A failure on closing goes unnoticed. */
  datatype Fate = NoFile | Partly(cut: nat) | Stored(arrived: nat, json: bool)

  /** The beginning of `bytes`, of this length if there are as many. */
  function Upto(bytes: Octets, n: nat): (r: Octets)
    ensures r <= bytes && (r == bytes <==> n >= |bytes|)
  {
    if n < |bytes| then bytes[..n] else bytes
  }

  /** A script that has run out means that everything succeeds. */
  function NextFate(fates: seq<Fate>, bytes: Option<Octets>): Fate {
    if fates != [] then fates[0] else Stored(if bytes.Some? then |bytes.value| else 0, true)
  }

  /** What the file holds afterwards: nothing new, or a beginning of the encoding. */
  function FilesAfter(files: map<string, Octets>, path: string, bytes: Option<Octets>, fate: Fate)
    : map<string, Octets>
  {
    if bytes.None? || fate.NoFile? then files
    else files[path := Upto(bytes.value, if fate.Partly? then fate.cut else fate.arrived)]
  }

  /** The record gets as far as adding an entry. */
  predicate Adds(bytes: Option<Octets>, fate: Fate) {
    bytes.Some? && fate.Stored?
  }

  /** Entry `e` names an artifact that holds a beginning of the encoding of `args`. */
  predicate EntryOk(sig: Ty, e: Entry, args: Val, files: map<string, Octets>, next: nat) {
    && e.recordId < next && e.path == ArtifactPath(e.kind, e.recordId) && HasType(sig, args)
    && e.path in files && ToBytes(sig, args).Some? && files[e.path] <= ToBytes(sig, args).value
  }

  predicate EntriesOk(sig: Ty, entries: seq<Entry>, recorded: seq<Val>, files: map<string, Octets>, next: nat) {
    && |recorded| == |entries|
    && (forall k | 0 <= k < |entries| :: EntryOk(sig, entries[k], recorded[k], files, next))
    && (forall j, k | 0 <= j < k < |entries| :: entries[j].recordId < entries[k].recordId)
  }

  /** The entries' artifacts are as they were. */
  predicate Untouched(entries: seq<Entry>, was: map<string, Octets>, now: map<string, Octets>) {
    forall e | e in entries :: e.path in was && e.path in now && now[e.path] == was[e.path]
  }

  /** Writing the artifact of a new record id touches no artifact of an entry. */
  lemma NewArtifact(sig: Ty, entries: seq<Entry>, recorded: seq<Val>, files: map<string, Octets>, id: nat,
      kind: string, bytes: Octets)
    requires EntriesOk(sig, entries, recorded, files, id)
    ensures EntriesOk(sig, entries, recorded, files, id + 1)
    ensures EntriesOk(sig, entries, recorded, files[ArtifactPath(kind, id) := bytes], id + 1)
    ensures forall k | 0 <= k < |entries| :: entries[k].recordId < id
    ensures Untouched(entries, files, files) && Untouched(entries, files, files[ArtifactPath(kind, id) := bytes])
  {
    hide ArtifactPath, HasType, ToBytes;
    forall k | 0 <= k < |entries|
      ensures EntryOk(sig, entries[k], recorded[k], files, id) && entries[k].path != ArtifactPath(kind, id)
    {
      if entries[k].path == ArtifactPath(kind, id) {
        ArtifactPathInjective(entries[k].kind, entries[k].recordId, kind, id);
      }
    }
  }

  lemma EntryAdded(sig: Ty, entries: seq<Entry>, recorded: seq<Val>, files: map<string, Octets>, e: Entry, args: Val)
    requires EntriesOk(sig, entries, recorded, files, e.recordId + 1) && EntryOk(sig, e, args, files, e.recordId + 1)
    requires forall k | 0 <= k < |entries| :: entries[k].recordId < e.recordId
    ensures EntriesOk(sig, entries + [e], recorded + [args], files, e.recordId + 1)
  {
    hide EntryOk;
  }

  /** One record keeps the entries in order and their artifacts as they were. */
  lemma RecordKeeps(sig: Ty, entries: seq<Entry>, recorded: seq<Val>, files: map<string, Octets>, e: Entry, args: Val,
      fate: Fate)
    requires EntriesOk(sig, entries, recorded, files, e.recordId) && e.path == ArtifactPath(e.kind, e.recordId)
    requires HasType(sig, args)
    ensures var bytes := ToBytes(sig, args);
      var files', adds := FilesAfter(files, e.path, bytes, fate), Adds(bytes, fate);
      && EntriesOk(sig, entries + (if adds then [e] else []), recorded + (if adds then [args] else []), files',
                   e.recordId + 1)
      && Untouched(entries, files, files')
  {
    hide ArtifactPath, HasType, ToBytes, EntriesOk, Untouched;
    var bytes := ToBytes(sig, args);
    var onDisk := if bytes.None? || fate.NoFile? then []
      else Upto(bytes.value, if fate.Partly? then fate.cut else fate.arrived);
    NewArtifact(sig, entries, recorded, files, e.recordId, e.kind, onDisk);
    assert entries + [] == entries && recorded + [] == recorded;
    if Adds(bytes, fate) {
      EntryAdded(sig, entries, recorded, FilesAfter(files, e.path, bytes, fate), e, args);
    }
  }

  class FailureRecorder {
    const sig: Ty
    var nextRecordId: nat
    var entries: seq<Entry>
    var files: map<string, Octets>
    var fates: seq<Fate>
    /** The recorded arguments, entry by entry, and whether every record so far has succeeded. */
    ghost var recorded: seq<Val>
    ghost var clean: bool

    ghost predicate Valid()
      reads this
    {
      && WellFormed(sig) && |recorded| == |entries| && EntriesOk(sig, entries, recorded, files, nextRecordId)
      && (clean ==> nextRecordId == |entries| + 1 && forall k | 0 <= k < |entries| :: entries[k].recordId == k + 1)
    }

    constructor (sig: Ty, files: map<string, Octets>, fates: seq<Fate>)
      requires WellFormed(sig)
      ensures Valid() && clean && entries == [] && nextRecordId == 1 && this.sig == sig && this.files == files
        && this.fates == fates
    {
      this.sig, this.files, this.fates := sig, files, fates;
      nextRecordId, entries, recorded, clean := 1, [], [], true;
    }

    function NextEntry(status: Status, taskId: nat, note: Note): Entry
      reads this
    {
      Entry(nextRecordId, taskId, KindName(status), note, ArtifactPath(KindName(status), nextRecordId))
    }

    /** Records one failure. `None` stands for an exception; the record id is used up all the same. No artifact of an
        earlier entry is touched. The new one holds as much of the encoding as has reached the disk, whether or not
        anybody notices. */
    method Record(status: Status, taskId: nat, args: Val, note: Note) returns (r: Option<Entry>)
      requires Valid() && HasType(sig, args)
      modifies this
      ensures Valid() && nextRecordId == old(nextRecordId) + 1 && clean == (old(clean) && r.Some?)
      ensures Untouched(old(entries), old(files), files)
      ensures var entry, bytes := old(NextEntry(status, taskId, note)), ToBytes(sig, args);
        var fate := NextFate(old(fates), bytes);
        && files == FilesAfter(old(files), entry.path, bytes, fate)
        && entries == old(entries) + (if Adds(bytes, fate) then [entry] else [])
        && recorded == old(recorded) + (if Adds(bytes, fate) then [args] else [])
        && r == if Adds(bytes, fate) && fate.json then Some(entry) else None
      ensures fates == if old(fates) == [] then [] else old(fates)[1..]
      ensures old(fates) != [] && old(fates)[0].Stored? && ToBytes(sig, args).Some? ==>
        |entries| == |old(entries)| + 1 && (r.Some? <==> old(fates)[0].json)
      ensures old(fates) != [] && !old(fates)[0].Stored? ==> entries == old(entries) && r.None?
    {
      hide HasType, WellFormed, ToBytes, ArtifactPath, EntriesOk, Untouched, Upto;
      var entry := NextEntry(status, taskId, note);
      nextRecordId := nextRecordId + 1;
      var bytes := CodecIo.Serialize(sig, args);
      var fate := NextFate(fates, bytes);
      RecordKeeps(sig, entries, recorded, files, entry, args, fate);
      fates := if fates == [] then [] else fates[1..];
      r := None;
      if bytes.Some? && !fate.NoFile? {
        files := files[entry.path := Upto(bytes.value, if fate.Partly? then fate.cut else fate.arrived)];
        if fate.Stored? {
          entries := entries + [entry];
          recorded := recorded + [args];
          if fate.json {
            r := Some(entry);
          }
        }
      }
      clean := clean && r.Some?;
      assert old(entries) + [] == old(entries) && old(recorded) + [] == old(recorded);
    }

    /** `record_result`: every result but an ok one is recorded, each kind with its text. */
    method RecordResult(result: TaskResult) returns (r: Option<Entry>, threw: bool)
      requires Valid() && HasType(sig, result.args)
      modifies this
      ensures Valid() && Untouched(old(entries), old(files), files)
      ensures result.status.OkStatus? ==>
        r.None? && !threw && entries == old(entries) && nextRecordId == old(nextRecordId) && files == old(files)
      ensures !result.status.OkStatus? ==> threw == r.None? && nextRecordId == old(nextRecordId) + 1
      ensures r.Some? ==>
        && entries == old(entries) + [r.value] && recorded == old(recorded) + [result.args]
        && r.value.recordId == old(nextRecordId) && r.value.taskId == result.taskId
      ensures r.Some? ==>
        && r.value.path == "bin/" + r.value.kind + "_" + Decimal(old(nextRecordId)) + ".args"
        && (result.status.Exception? ==> r.value.kind == "exception")
        && (result.status.Crash? ==> r.value.kind == "crash") && (result.status.Timeout? ==> r.value.kind == "timeout")
        && (result.status.ProtocolError? ==> r.value.kind == "protocol_error")
        && (result.status.IpcError? ==> r.value.kind == "ipc_error")
        && (result.status.InternalError? ==> r.value.kind == "internal_error")
      ensures r.Some? ==>
        && (result.status.Crash? ==> r.value.note == SignalName(result.signal))
        && (result.status.Exception? ==> r.value.note == Said(result.message))
        && (result.status !in {Crash, Exception} ==>
              r.value.note == if result.message == NoMessage then NameOf(result.status) else Said(result.message))
      ensures clean == (old(clean) && !threw)
    {
      hide HasType, WellFormed, ToBytes;
      r, threw := None, false;
      if result.status.OkStatus? {
        UntouchedEntries();
      } else {
        var note := if result.status.Crash? then SignalName(result.signal)
          else if result.status.Exception? || result.message != NoMessage then Said(result.message)
          else NameOf(result.status);
        r := Record(result.status, result.taskId, result.args, note);
        threw := r.None?;
      }
    }

    lemma UntouchedEntries()
      requires Valid()
      ensures Untouched(entries, files, files)
    {
      hide HasType, WellFormed, ToBytes, ArtifactPath;
    }

    /** While every record succeeds, the k-th recorded failure has record id k. */
    lemma Numbered(k: nat)
      requires Valid() && clean && k < |entries|
      ensures entries[k].recordId == k + 1 && entries[k].path == ArtifactPath(entries[k].kind, k + 1)
    {
      hide HasType, WellFormed, ToBytes, ArtifactPath;
      assert EntryOk(sig, entries[k], recorded[k], files, nextRecordId);
    }

    /** `load_fuzz_args`. */
    method Load(path: string) returns (args: Option<Val>)
      requires WellFormed(sig)
      ensures args == if path in files then FromBytes(sig, files[path]) else None
    {
      if path !in files {
        return None;
      }
      args := CodecIo.Deserialize(sig, files[path]);
    }

    /** The artifact of entry `k` has as many bytes as the encoding of its arguments. */
    ghost predicate ArrivedWhole(k: nat)
      requires Valid() && k < |entries|
      reads this
    {
      assert EntryOk(sig, entries[k], recorded[k], files, nextRecordId);
      |files[entries[k].path]| == |ToBytes(sig, recorded[k]).value|
    }

    /** Loading a recorded artifact gives back the arguments of that failure exactly when the artifact has arrived
        whole; otherwise loading throws, so that no replay runs the target on other arguments. */
    lemma Replays(k: nat)
      requires Valid() && k < |entries|
      ensures entries[k].path in files
      ensures var loaded := FromBytes(sig, files[entries[k].path]);
        && (loaded == Some(recorded[k]) <==> ArrivedWhole(k))
        && (loaded == None <==> !ArrivedWhole(k))
    {
      hide HasType, WellFormed, ToBytes, FromBytes, ArtifactPath;
      assert EntryOk(sig, entries[k], recorded[k], files, nextRecordId);
      StoredPart(sig, recorded[k], files[entries[k].path]);
    }
  }

  /** What loading makes of a beginning of an encoding. */
  lemma StoredPart(sig: Ty, args: Val, stored: Octets)
    requires WellFormed(sig) && HasType(sig, args) && ToBytes(sig, args).Some? && stored <= ToBytes(sig, args).value
    ensures FromBytes(sig, stored) == if |stored| == |ToBytes(sig, args).value| then Some(args) else None
  {
    hide HasType, WellFormed, Enc, Dec;
    var bytes := ToBytes(sig, args).value;
    assert stored == bytes[..|stored|];
    if |stored| == |bytes| {
      assert stored == bytes;
      ApiRoundTrip(sig, args);
    } else {
      TruncationRejected(sig, args, |stored|);
    }
  }

  /** It does happen: for every argument tuple and every strict beginning of its encoding there is a record that throws
      nothing and returns its entry, and whose artifact cannot be loaded. */
  method LosesArtifact(sig: Ty, args: Val, cut: nat) returns (entry: Option<Entry>, loaded: Option<Val>)
    requires WellFormed(sig) && HasType(sig, args) && ToBytes(sig, args).Some? && cut < |ToBytes(sig, args).value|
    ensures entry.Some? && entry.value.path == ArtifactPath("crash", 1) && loaded == None
  {
    hide HasType, WellFormed, ToBytes, FromBytes, ArtifactPath;
    var recorder := new FailureRecorder(sig, map[], [Stored(cut, true)]);
    entry := recorder.Record(Crash, 1, args, SignalName(11));
    recorder.Replays(0);
    loaded := recorder.Load(entry.value.path);
  }
}
