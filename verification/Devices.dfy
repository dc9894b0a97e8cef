/**
 * The server's PSK table: a cache keyed by the file's modification time, read while
 * other processes rewrite the file.
 *
 * Every write gives the file a new version with its own modification time; a file
 * caught half written is a version that does not parse. The two gaps in one lookup,
 * before the second stat and between stat and read, hold arbitrary changes.
 */
module Devices {
  import opened Bytes
  import opened KeySchedule
  import opened Messages

  type Psks = map<Bytes, Bytes>

  /**
   * What reading and parsing one version gives: no file or no permission (OSError),
   * not JSON or not hex (ValueError), JSON of another shape (AttributeError or
   * TypeError, which nothing catches), or a mapping of byte strings.
   */
  datatype Content = Gone | Unreadable | Invalid | Misshapen | Table(psks: Psks)

  datatype Version = Version(mtime: nat, content: Content)

  /** The file system's side: all versions so far, the last one current, and the permission bits. */
  datatype File = File(history: seq<Version>, mode: nat)

  datatype Change = Write(version: Version) | Chmod(mode: nat)

  /** The file after changes; versions are only ever added. */
  function After(f: File, changes: seq<Change>): (g: File)
    ensures f.history <= g.history
    decreases |changes|
  {
    if changes == [] then f
    else
      match changes[0]
      case Write(v) => After(f.(history := f.history + [v]), changes[1..])
      case Chmod(m) => After(f.(mode := m), changes[1..])
  }

  function Current(f: File): Version
    requires f.history != []
  {
    f.history[|f.history| - 1]
  }

  /** mode & 0o077 is zero: nothing for group and others. */
  predicate Private(mode: nat) { mode % 64 == 0 }

  /** Bit k of a mode, the lowest being bit 0. */
  function Bit(n: nat, k: nat): nat { if k == 0 then n % 2 else Bit(n / 2, k - 1) }

  /** All six permission bits of group and others are clear. */
  lemma PrivateMeansNoOthers(mode: nat)
    ensures Private(mode) <==> forall k: nat :: k < 6 ==> Bit(mode, k) == 0
  {
    Halved(mode);
    Halved(mode / 2 / 2 / 2);
    SixBits(mode);
  }

  lemma SixBits(n: nat)
    ensures Bit(n, 0) == n % 2 && Bit(n, 1) == n / 2 % 2 && Bit(n, 2) == n / 2 / 2 % 2
    ensures var m := n / 2 / 2 / 2; Bit(n, 3) == m % 2 && Bit(n, 4) == m / 2 % 2 && Bit(n, 5) == m / 2 / 2 % 2
  {
    assert Bit(n / 2 / 2 / 2, 2) == Bit(n / 2 / 2 / 2 / 2, 1);
    assert Bit(n, 5) == Bit(n / 2, 4) == Bit(n / 2 / 2, 3);
    assert Bit(n, 4) == Bit(n / 2, 3) == Bit(n / 2 / 2, 2);
  }

  lemma Halved(n: nat)
    ensures n % 64 == 0 <==> n % 2 == 0 && n / 2 % 2 == 0 && n / 2 / 2 % 2 == 0 && n / 2 / 2 / 2 % 8 == 0
    ensures n % 8 == 0 <==> n % 2 == 0 && n / 2 % 2 == 0 && n / 2 / 2 % 2 == 0
  {
    Half(n, 32);
    Half(n / 2, 16);
    Half(n / 2 / 2, 8);
    Half(n, 4);
    Half(n / 2, 2);
  }

  lemma Half(n: nat, m: nat)
    requires m > 0
    ensures n % (2 * m) == 0 <==> n % 2 == 0 && n / 2 % m == 0
  {
    var q, r := n / 2 / m, n / 2 % m;
    MulAssociates(2, m, q);
    DivUnique(n, 2 * m, q, 2 * r + n % 2);
  }

  /** A write is what is current from then on, and leaves the permissions alone; chmod leaves the content alone. */
  lemma LastWriteIsCurrent(f: File, changes: seq<Change>, v: Version, mode: nat)
    ensures var g := After(f, changes + [Write(v)]);
            g.history != [] && Current(g) == v && g.mode == After(f, changes).mode
    ensures var g := After(f, changes + [Chmod(mode)]);
            g.mode == mode && g.history == After(f, changes).history
    decreases |changes|
  {
    if changes != [] {
      assert (changes + [Write(v)])[1..] == changes[1..] + [Write(v)];
      assert (changes + [Chmod(mode)])[1..] == changes[1..] + [Chmod(mode)];
      match changes[0]
      case Write(u) => LastWriteIsCurrent(f.(history := f.history + [u]), changes[1..], v, mode);
      case Chmod(m) => LastWriteIsCurrent(f.(mode := m), changes[1..], v, mode);
    }
  }

  predicate WellFormed(psks: Psks) { forall id <- psks :: |id| == DEVICE_ID_LEN && |psks[id]| == PSK_LEN }

  predicate Loadable(v: Version) { v.content.Table? && WellFormed(v.content.psks) }

  function Get(psks: Psks, id: Bytes): Option<Bytes> { if id in psks then Some(psks[id]) else None }

  // ---------------------------------------------------------------- specification

  /** How _reload ends; Ended is an exception that no handler catches, so the process dies. */
  datatype Reloaded = Kept | Ended | Fresh(psks: Psks, mtime: nat)

  /** _reload with the file as it is at the stat and at the read. */
  function Reload(atStat: File, atRead: File): Reloaded
    requires atStat.history != [] && atRead.history != []
  {
    if Current(atStat).content.Gone? then Kept
    else if !Private(atStat.mode) then Ended
    else
      match Current(atRead).content
      case Gone => Kept
      case Unreadable => Kept
      case Invalid => Kept
      case Misshapen => Ended
      case Table(psks) => if WellFormed(psks) then Fresh(psks, Current(atStat).mtime) else Ended
  }

  /** The file and the cache; `seen` and `read` are the versions current at the last successful stat and read. */
  datatype Service = Service(file: File, psks: Psks, mtime: nat, seen: nat, read: nat)

  datatype Event = Changed(changes: seq<Change>) | Looked(id: Bytes, w0: seq<Change>, w1: seq<Change>)

  /** One event; None when the server process ends. */
  function Step(s: Service, e: Event): Option<Service>
    requires s.file.history != []
  {
    match e
    case Changed(ws) => Some(s.(file := After(s.file, ws)))
    case Looked(id, w0, w1) =>
      if Current(s.file).content.Gone? || Current(s.file).mtime == s.mtime then Some(s)
      else
        var atStat := After(s.file, w0);
        var atRead := After(atStat, w1);
        match Reload(atStat, atRead)
        case Ended => None
        case Kept => Some(s.(file := if Current(atStat).content.Gone? then atStat else atRead))
        case Fresh(psks, mtime) => Some(Service(atRead, psks, mtime, |atStat.history| - 1, |atRead.history| - 1))
  }

  // ---------------------------------------------------------------- the invariant

  /** No two versions share a modification time. */
  predicate Distinct(history: seq<Version>) {
    forall i, j :: 0 <= i < j < |history| ==> history[i].mtime != history[j].mtime
  }

  /** The cache is one complete, well-formed version, no older than the one whose mtime it carries. */
  predicate Serving(s: Service) {
    s.seen <= s.read < |s.file.history| && s.file.history[s.read].content == Table(s.psks) && WellFormed(s.psks) &&
    s.mtime == s.file.history[s.seen].mtime
  }

  /** A step keeps the invariant, only appends versions and never serves an older one. */
  lemma StepServes(s: Service, e: Event)
    requires Serving(s) && Step(s, e).Some?
    ensures Serving(Step(s, e).value)
    ensures s.file.history <= Step(s, e).value.file.history && s.read <= Step(s, e).value.read &&
            s.seen <= Step(s, e).value.seen
  {
    match e
    case Changed(ws) =>
    case Looked(id, w0, w1) =>
      var atStat := After(s.file, w0);
      assert s.file.history <= After(atStat, w1).history;
  }

  /** The run of the server over these events, up to where its process ends. */
  function Run(s: Service, es: seq<Event>): Option<Service>
    requires Serving(s)
    decreases |es|
  {
    if es == [] then Some(s)
    else if Step(s, es[0]).None? then None
    else
      StepServes(s, es[0]);
      Run(Step(s, es[0]).value, es[1..])
  }

  /**
   * Over every run, whatever is changed in whichever gap: what is served is always
   * one well-formed version of the file, and later states never serve an earlier one.
   */
  lemma {:induction false} ServedVersionsNeverGoBack(s: Service, es: seq<Event>)
    requires Serving(s) && Run(s, es).Some?
    ensures var t := Run(s, es).value;
            Serving(t) && s.read <= t.read && s.file.history <= t.file.history
    decreases |es|
  {
    if es != [] {
      StepServes(s, es[0]);
      ServedVersionsNeverGoBack(Step(s, es[0]).value, es[1..]);
    }
  }

  /** Equal modification times mean the cache is current, even when its stat and its read saw different versions. */
  lemma SameTimeIsCurrent(s: Service)
    requires Serving(s) && Distinct(s.file.history) && Current(s.file).mtime == s.mtime
    ensures Current(s.file).content == Table(s.psks)
  {
  }

  /** What a lookup that no change overlaps does: it stops, keeps the cache or serves the current file. */
  datatype Verdict = Stops | Keeps | Serves(psks: Psks)

  /** The current file decides, except that its permissions are not looked at while its time is unchanged. */
  function QuietVerdict(f: File, changed: bool): Verdict
    requires f.history != []
  {
    var v := Current(f);
    if Loadable(v) && (Private(f.mode) || !changed) then Serves(v.content.psks)
    else if v.content.Gone? || (Private(f.mode) && (v.content.Unreadable? || v.content.Invalid?)) then Keeps
    else Stops
  }

  /**
   * After any run, a lookup without overlapping changes answers from the current
   * file whenever that is a valid private table, whether or not an earlier change
   * fell between stat and read; keeps the cached copy when the file is missing or
   * does not parse; and ends the process exactly in the remaining cases.
   */
  lemma QuietLookup(s: Service, id: Bytes)
    requires Serving(s) && Distinct(s.file.history)
    ensures match QuietVerdict(s.file, Current(s.file).mtime != s.mtime)
            case Stops => Step(s, Looked(id, [], [])) == None
            case Keeps => Step(s, Looked(id, [], [])) == Some(s)
            case Serves(psks) => Step(s, Looked(id, [], [])).Some? && Step(s, Looked(id, [], [])).value.psks == psks
  {
    if Current(s.file).mtime == s.mtime { SameTimeIsCurrent(s); }
  }

  lemma QuietLookupAfterAnyRun(s: Service, es: seq<Event>, id: Bytes)
    requires Serving(s) && Run(s, es).Some? && Distinct(Run(s, es).value.file.history)
    requires var f := Run(s, es).value.file; f.history != [] && Loadable(Current(f)) && Private(f.mode)
    ensures var t := Run(s, es).value;
            Step(t, Looked(id, [], [])).Some? &&
            Get(Step(t, Looked(id, [], [])).value.psks, id) == Get(Current(t.file).content.psks, id)
  {
    ServedVersionsNeverGoBack(s, es);
    QuietLookup(Run(s, es).value, id);
  }

  /**
   * A reload keeps the time of the stat, not of the read: if the file changed in
   * between, the cache carries a time that is no longer current, so that the next
   * lookup reads the file again.
   */
  lemma OverlappedReloadIsRepeated(s: Service, id: Bytes, w0: seq<Change>, w1: seq<Change>)
    requires s.file.history != [] && Step(s, Looked(id, w0, w1)).Some?
    ensures var t := Step(s, Looked(id, w0, w1)).value;
            t.psks != s.psks ==>
              t.mtime == Current(After(s.file, w0)).mtime &&
              Current(After(After(s.file, w0), w1)).content == Table(t.psks) &&
              t.file == After(After(s.file, w0), w1)
  {
  }

  /**
   * Without that assumption, exactly when an undisturbed lookup ends up with the
   * current valid table: its time differs from the cached one and it is private, or
   * its time is the cached one and the cache happens to hold its content.
   */
  lemma CurrentExactlyWhen(s: Service, id: Bytes)
    requires s.file.history != [] && Loadable(Current(s.file))
    ensures var v := Current(s.file); var t := Step(s, Looked(id, [], []));
            (t.Some? && t.value.psks == v.content.psks) <==>
            if v.mtime == s.mtime then s.psks == v.content.psks else Private(s.file.mode)
  {
    assert After(After(s.file, []), []) == s.file;
  }

  /** With a repeated modification time the table can stay stale, for as long as nothing else changes. */
  lemma RepeatedTimeGoesUnnoticed(stale: Psks, current: Psks, id: Bytes)
    requires WellFormed(stale) && WellFormed(current) && Get(stale, id) != Get(current, id)
    ensures var s := Service(File([Version(7, Table(stale)), Version(7, Table(current))], 0), stale, 7, 0, 0);
            Serving(s) && Step(s, Looked(id, [], [])) == Some(s) &&
            Get(s.psks, id) != Get(Current(s.file).content.psks, id)
  {
  }

  // ---------------------------------------------------------------- pqc_server.py

  datatype Stat = Stat(mtime: nat, mode: nat)

  /** The path of the table in a file system that others write to. */
  class Path {
    var file: File

    constructor (file: File)
      ensures this.file == file
    {
      this.file := file;
    }

    /** None is the OSError of a missing file. */
    method StatFile() returns (r: Option<Stat>)
      requires file.history != []
      ensures r == if Current(file).content.Gone? then None else Some(Stat(Current(file).mtime, file.mode))
    {
      if Current(file).content.Gone? { return None; }
      return Some(Stat(Current(file).mtime, file.mode));
    }

    method Others(changes: seq<Change>)
      requires file.history != []
      modifies this
      ensures file == After(old(file), changes) && old(file).history <= file.history
    {
      file := After(file, changes);
    }
  }

  datatype Answer = Terminated | Psk(psk: Option<Bytes>)

  class DeviceTable {
    const path: Path
    var psks: Psks
    var mtime: Option<nat>
    ghost var seen: nat
    ghost var read: nat

    constructor (path: Path)
      ensures this.path == path && psks == map[] && mtime == None
    {
      this.path, psks, mtime := path, map[], None;
    }

    ghost function State(): Service
      requires mtime.Some?
      reads this, path
    {
      Service(path.file, psks, mtime.value, seen, read)
    }

    /** _reload; `during` is what others do between its stat and its read. */
    method ReloadFile(during: seq<Change>) returns (r: Reloaded)
      requires path.file.history != []
      modifies this, path
      ensures old(path.file).history <= path.file.history
      ensures r == Reload(old(path.file), After(old(path.file), during))
      ensures path.file == if Current(old(path.file)).content.Gone? || !Private(old(path.file).mode) then old(path.file)
                           else After(old(path.file), during)
      ensures r.Fresh? ==>
                psks == r.psks && mtime == Some(r.mtime) && seen == |old(path.file).history| - 1 &&
                read == |path.file.history| - 1
      ensures !r.Fresh? ==> psks == old(psks) && mtime == old(mtime) && seen == old(seen) && read == old(read)
    {
      ghost var before := path.file;
      var stat := path.StatFile();
      if stat.None? { return Kept; }
      if !Private(stat.value.mode) { return Ended; }
      path.Others(during);
      match Current(path.file).content
      case Gone => return Kept;
      case Unreadable => return Kept;
      case Invalid => return Kept;
      case Misshapen => return Ended;
      case Table(loaded) =>
        var ok := CheckEntries(loaded);
        if !ok { return Ended; }
        psks, mtime := loaded, Some(stat.value.mtime);
        seen, read := |before.history| - 1, |path.file.history| - 1;
        return Fresh(loaded, stat.value.mtime);
    }

    /** The loop over the entries of a freshly parsed table. */
    static method CheckEntries(loaded: Psks) returns (ok: bool)
      ensures ok <==> WellFormed(loaded)
    {
      var left := loaded.Keys;
      while left != {}
        invariant left <= loaded.Keys
        invariant forall id <- loaded :: id in left || (|id| == DEVICE_ID_LEN && |loaded[id]| == PSK_LEN)
        decreases left
      {
        var id :| id in left;
        if |id| != DEVICE_ID_LEN || |loaded[id]| != PSK_LEN { return false; }
        left := left - {id};
      }
      return true;
    }

    /** __init__ after the existence check; a table that cannot be loaded ends the process. */
    method Start(during: seq<Change>) returns (ok: bool)
      requires path.file.history != []
      modifies this, path
      ensures ok <==> Reload(old(path.file), After(old(path.file), during)).Fresh?
      ensures ok ==> mtime.Some? && Serving(State())
    {
      var r := ReloadFile(during);
      ok := r.Fresh?;
    }

    /** psk_for; `w0` and `w1` are what others do before the second stat and before the read. */
    method PskFor(id: Bytes, w0: seq<Change>, w1: seq<Change>) returns (r: Answer)
      requires mtime.Some? && Serving(State())
      modifies this, path
      ensures match Step(old(State()), Looked(id, w0, w1))
              case None => r == Terminated
              case Some(s) => mtime.Some? && State() == s && Serving(s) && r == Psk(Get(s.psks, id))
      ensures r.Psk? ==> (r.psk.Some? <==> id in psks) && (r.psk.Some? ==> r.psk.value == psks[id])
    {
      StepIfServing(State(), id, w0, w1);
      var stat := path.StatFile();
      if stat.Some? && Some(stat.value.mtime) != mtime {
        path.Others(w0);
        var done := ReloadFile(w1);
        if done.Ended? { return Terminated; }
      }
      return Psk(Get(psks, id));
    }

    static lemma StepIfServing(s: Service, id: Bytes, w0: seq<Change>, w1: seq<Change>)
      requires Serving(s)
      ensures Step(s, Looked(id, w0, w1)).Some? ==> Serving(Step(s, Looked(id, w0, w1)).value)
    {
      if Step(s, Looked(id, w0, w1)).Some? { StepServes(s, Looked(id, w0, w1)); }
    }
  }
}
