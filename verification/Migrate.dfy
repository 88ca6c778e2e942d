/**
 * Moving plaintext secrets into the vault (internal/config/migrate.go), and
 * what a crash between any two of its writes can and cannot lose.
 */
module Migrate {
  import opened Options
  import opened Vault

  datatype Plaintext = Plaintext(passwords: map<string, string>, keys: map<string, string>, keyFiles: map<string, File>)
  {
    predicate Any() { passwords != map[] || keys != map[] }
  }

  const NOTHING := Plaintext(map[], map[], map[])

  datatype Report = Report(passwords: nat, keys: nat, backup: bool)

  // ---------------------------------------------------------------- scanning

  function ScanEntry(d: Disk, pt: Plaintext, e: Entry): Plaintext {
    if e.id == "" then pt
    else
      var with := if e.password != "" then pt.(passwords := pt.passwords[e.id := e.password]) else pt;
      if !Owned(e.keyPath) || e.keyPath.value !in d then with
      else with.(keys := with.keys[e.id := Body(d[e.keyPath.value])], keyFiles := with.keyFiles[e.id := e.keyPath.value])
  }

  function ScanEntries(d: Disk, entries: seq<Entry>): Plaintext {
    if entries == [] then NOTHING
    else ScanEntry(d, ScanEntries(d, entries[..|entries| - 1]), entries[|entries| - 1])
  }

  function Listed(d: Disk): seq<Entry> {
    if ServersJson in d && d[ServersJson].Servers? then d[ServersJson].entries else []
  }

  function Scan(d: Disk): Plaintext { ScanEntries(d, Listed(d)) }

  // ---------------------------------------------------------------- replacing a file

  /** d once the file f has been replaced through tmp. */
  function Replaced(d: Disk, tmp: File, f: File, c: Content): Disk
    requires tmp != f
  {
    d[f := c] - {tmp}
  }

  /** A state on the way: only tmp differs, or the replacement is done. */
  predicate Replacing(before: Disk, d: Disk, tmp: File, f: File, c: Content)
    requires tmp != f
  {
    d - {tmp} == before - {tmp} || d == Replaced(before, tmp, f, c)
  }

  /** What happens to tmp alone is on the way, and renaming it over f completes the replacement. */
  lemma TmpOnly(d: Disk, tmp: File, f: File, c: Content, x: Content)
    requires tmp != f
    ensures Replacing(d, d[tmp := x], tmp, f, c)
    ensures (d[tmp := c] - {tmp})[f := d[tmp := c][tmp]] == Replaced(d, tmp, f, c)
  {
    assert d[tmp := x] - {tmp} == d - {tmp};
    assert (d[tmp := c] - {tmp})[f := c] == d[f := c] - {tmp};
  }

  function NoPasswords(entries: seq<Entry>): (r: seq<Entry>)
    ensures |r| == |entries| && forall i | 0 <= i < |r| :: r[i] == entries[i].(password := "")
  {
    seq(|entries|, i requires 0 <= i < |entries| => entries[i].(password := ""))
  }

  // ---------------------------------------------------------------- the stages of a migration

  function BackedUp(d: Disk): Disk { if ServersJson in d then d[Backup := d[ServersJson]] else d }

  function Filled(secrets: Secrets, pt: Plaintext): Secrets {
    secrets.(passwords := Fill(secrets.passwords, pt.passwords), keys := Fill(secrets.keys, pt.keys))
  }

  function ClearMoved(entries: seq<Entry>, pt: Plaintext): (r: seq<Entry>)
    ensures |r| == |entries|
    ensures forall i | 0 <= i < |r| :: r[i] == if entries[i].id in pt.keys then entries[i].(keyPath := None) else entries[i]
  {
    seq(|entries|, i requires 0 <= i < |entries| =>
      if entries[i].id in pt.keys then entries[i].(keyPath := None) else entries[i])
  }

  /** Once the vault is sealed: backup kept, secrets in the vault. */
  function SealedDisk(d0: Disk, pt: Plaintext, secrets: Secrets, passphrase: string): Disk {
    Replaced(BackedUp(d0), VaultTmp, VaultAge, Sealed(Filled(secrets, pt), passphrase))
  }

  /** Once the list is rewritten as well. */
  function RewrittenDisk(d0: Disk, pt: Plaintext, secrets: Secrets, passphrase: string): Disk {
    Replaced(SealedDisk(d0, pt, secrets, passphrase), ServersTmp, ServersJson, Servers(NoPasswords(ClearMoved(Listed(d0), pt))))
  }

  /** Before the vault is renamed into place only the backup and the vault's temporary differ. */
  predicate Unsealed(d0: Disk, d: Disk) { d - {Backup, VaultTmp} == d0 - {Backup, VaultTmp} }

  /** Before the list is renamed into place only its temporary differs from the sealed state. */
  predicate Unwritten(d0: Disk, d: Disk, pt: Plaintext, secrets: Secrets, passphrase: string) {
    d - {ServersTmp} == SealedDisk(d0, pt, secrets, passphrase) - {ServersTmp}
  }

  /** Some of the originals, and perhaps the marker, are gone from r. */
  ghost predicate Cleaning(r: Disk, d: Disk, pt: Plaintext) {
    && (forall f | f in d :: f in r && d[f] == r[f])
    && (forall f | f in r && f !in d :: f in pt.keyFiles.Values || f == Warn)
  }

  /** The states a crash can leave. */
  ghost predicate Crashed(d0: Disk, d: Disk, pt: Plaintext, secrets: Secrets, passphrase: string) {
    || Unsealed(d0, d)
    || Unwritten(d0, d, pt, secrets, passphrase)
    || Cleaning(RewrittenDisk(d0, pt, secrets, passphrase), d, pt)
  }

  /** A finished migration; only the marker may be left over. */
  ghost predicate Migrated(d0: Disk, d: Disk, pt: Plaintext, secrets: Secrets, passphrase: string) {
    d - {Warn} == RewrittenDisk(d0, pt, secrets, passphrase) - pt.keyFiles.Values - {Warn}
  }

  lemma CleanedUp(r: Disk, d: Disk, pt: Plaintext)
    requires Cleaning(r, d, pt) && forall f | f in pt.keyFiles.Values :: f !in d
    ensures d - {Warn} == r - pt.keyFiles.Values - {Warn}
  {
  }

  /** Every state from `from` on is one a crash can leave. */
  ghost predicate AllCrashed(
    h: seq<Disk>, from: nat, d0: Disk, pt: Plaintext, secrets: Secrets, passphrase: string)
  {
    forall k | from <= k < |h| :: Crashed(d0, h[k], pt, secrets, passphrase)
  }

  lemma AllCrashedOn(
    h: seq<Disk>, h': seq<Disk>, from: nat, d0: Disk, pt: Plaintext, secrets: Secrets, passphrase: string)
    requires from <= |h| && h <= h' && AllCrashed(h, from, d0, pt, secrets, passphrase)
    requires AllCrashed(h', |h|, d0, pt, secrets, passphrase)
    ensures AllCrashed(h', from, d0, pt, secrets, passphrase)
  {
    forall k | from <= k < |h'| ensures Crashed(d0, h'[k], pt, secrets, passphrase) {
      if k < |h| {
        assert h'[k] == h[k];
      }
    }
  }

  lemma SealingStates(d0: Disk, pt: Plaintext, secrets: Secrets, passphrase: string)
    ensures forall d | Replacing(BackedUp(d0), d, VaultTmp, VaultAge, Sealed(Filled(secrets, pt), passphrase)) ::
              Unsealed(d0, d) || d == SealedDisk(d0, pt, secrets, passphrase)
  {
    forall d: Disk | d - {VaultTmp} == BackedUp(d0) - {VaultTmp} ensures Unsealed(d0, d) {
      assert d - {Backup, VaultTmp} == d - {VaultTmp} - {Backup};
      assert BackedUp(d0) - {VaultTmp} - {Backup} == d0 - {Backup, VaultTmp};
    }
  }

  lemma RewritingStates(d0: Disk, pt: Plaintext, secrets: Secrets, passphrase: string)
    ensures Listed(SealedDisk(d0, pt, secrets, passphrase)) == Listed(d0)
    ensures forall d | Replacing(SealedDisk(d0, pt, secrets, passphrase), d, ServersTmp, ServersJson,
                                 Servers(NoPasswords(ClearMoved(Listed(d0), pt)))) ::
              Unwritten(d0, d, pt, secrets, passphrase) || d == RewrittenDisk(d0, pt, secrets, passphrase)
  {
  }

  class Store {
    const dir: Directory

    constructor (dir: Directory)
      ensures this.dir == dir
    {
      this.dir := dir;
    }

    /** Reads only; a file that cannot be read or parsed stops it. */
    method ScanPlaintext() returns (pt: Plaintext, fault: Fault)
      ensures fault == Ok ==> pt == Scan(dir.files)
      ensures fault == Malformed ==> ServersJson in dir.files && !dir.files[ServersJson].Servers?
    {
      pt := NOTHING;
      if ServersJson !in dir.files {
        return NOTHING, Ok;
      }
      if * {
        return pt, Failed;
      }
      if !dir.files[ServersJson].Servers? {
        return pt, Malformed;
      }
      var entries := dir.files[ServersJson].entries;
      var i := 0;
      while i < |entries|
        invariant 0 <= i <= |entries| && pt == ScanEntries(dir.files, entries[..i])
      {
        var e := entries[i];
        assert entries[..i + 1][..i] == entries[..i];
        i := i + 1;
        if e.id == "" {
          continue;
        }
        if e.password != "" {
          pt := pt.(passwords := pt.passwords[e.id := e.password]);
        }
        if !Owned(e.keyPath) {
          continue;
        }
        if e.keyPath.value !in dir.files {
          continue;
        }
        if * {
          return pt, Failed;
        }
        pt := pt.(keys := pt.keys[e.id := Body(dir.files[e.keyPath.value])],
                  keyFiles := pt.keyFiles[e.id := e.keyPath.value]);
      }
      assert entries[..|entries|] == entries;
      return pt, Ok;
    }

    /** Load: the list, read back. */
    method Load() returns (entries: seq<Entry>, fault: Fault)
      ensures fault == Ok ==> entries == Listed(dir.files) && (ServersJson in dir.files ==> dir.files[ServersJson].Servers?)
    {
      if ServersJson !in dir.files {
        return [], Ok;
      }
      if * {
        return [], Failed;
      }
      if !dir.files[ServersJson].Servers? {
        return [], Malformed;
      }
      return dir.files[ServersJson].entries, Ok;
    }

    /** Save: the list is written beside its place and renamed into it; passwords are not part of it any more. */
    method Save(entries: seq<Entry>) returns (fault: Fault)
      requires dir.Valid()
      modifies dir
      ensures dir.Valid() && old(dir.history) <= dir.history
      ensures fault == Ok ==> dir.files == Replaced(old(dir.files), ServersTmp, ServersJson, Servers(NoPasswords(entries)))
      ensures forall k | |old(dir.history)| <= k < |dir.history| ::
                Replacing(old(dir.files), dir.history[k], ServersTmp, ServersJson, Servers(NoPasswords(entries)))
      ensures fault != Ok ==> Replacing(old(dir.files), dir.files, ServersTmp, ServersJson, Servers(NoPasswords(entries)))
    {
      fault := ReplaceFile(ServersTmp, ServersJson, Servers(NoPasswords(entries)));
    }

    /** SaveSecrets: sealed, then replaced the same way. An empty passphrase seals nothing. */
    method SaveSecrets(secrets: Secrets, passphrase: string) returns (fault: Fault)
      requires dir.Valid()
      modifies dir
      ensures dir.Valid() && old(dir.history) <= dir.history
      ensures fault == Ok ==>
                && passphrase != ""
                && dir.files == Replaced(old(dir.files), VaultTmp, VaultAge, Sealed(secrets, passphrase))
      ensures forall k | |old(dir.history)| <= k < |dir.history| ::
                Replacing(old(dir.files), dir.history[k], VaultTmp, VaultAge, Sealed(secrets, passphrase))
      ensures fault != Ok ==> Replacing(old(dir.files), dir.files, VaultTmp, VaultAge, Sealed(secrets, passphrase))
    {
      if passphrase == "" {
        return BadPassphrase;
      }
      fault := ReplaceFile(VaultTmp, VaultAge, Sealed(secrets, passphrase));
    }

    /** Write, set the mode, rename. */
    method ReplaceFile(tmp: File, f: File, c: Content) returns (fault: Fault)
      requires dir.Valid() && tmp != f
      modifies dir
      ensures dir.Valid() && old(dir.history) <= dir.history
      ensures fault == Ok ==> dir.files == Replaced(old(dir.files), tmp, f, c)
      ensures forall k | |old(dir.history)| <= k < |dir.history| :: Replacing(old(dir.files), dir.history[k], tmp, f, c)
      ensures fault != Ok ==> Replacing(old(dir.files), dir.files, tmp, f, c)
      ensures fault in {Ok, Failed}
    {
      ghost var was := dir.files;
      TmpOnly(was, tmp, f, c, Torn);
      TmpOnly(was, tmp, f, c, c);
      fault := dir.WriteFile(tmp, c);
      if fault != Ok {
        return;
      }
      fault := dir.Chmod(tmp);
      if fault != Ok {
        return;
      }
      fault := dir.Rename(tmp, f);
    }

    /** The copy kept of what is about to be rewritten. */
    method KeepBackup() returns (kept: bool, fault: Fault)
      requires dir.Valid()
      modifies dir
      ensures dir.Valid() && old(dir.history) <= dir.history
      ensures fault == Ok ==> dir.files == BackedUp(old(dir.files)) && kept == (ServersJson in old(dir.files))
      ensures forall k | |old(dir.history)| <= k < |dir.history| :: Unsealed(old(dir.files), dir.history[k])
      ensures Unsealed(old(dir.files), dir.files)
    {
      kept, fault := false, Ok;
      if ServersJson !in dir.files {
        return;
      }
      if * {
        return false, Failed;
      }
      fault := dir.WriteFile(Backup, dir.files[ServersJson]);
      if fault != Ok {
        return;
      }
      fault := dir.Chmod(Backup);
      kept := true;
    }

    /** One of Migrate's two filling loops; the order of a Go map is anybody's. */
    method FillFrom(m: map<string, string>, add: map<string, string>) returns (r: map<string, string>)
      ensures r == Fill(m, add)
    {
      r := m;
      var rest := add.Keys;
      FillNothing(m);
      assert add - rest == map[];
      while rest != {}
        invariant rest <= add.Keys && r == Fill(m, add - rest)
        decreases rest
      {
        var id :| id in rest;
        FillOneMore(m, add - rest, id, add[id]);
        assert add - (rest - {id}) == (add - rest)[id := add[id]];
        r := Set(r, id, add[id]);
        rest := rest - {id};
      }
      assert add - {} == add;
    }

    method ClearPaths(entries: seq<Entry>, pt: Plaintext) returns (cleared: seq<Entry>)
      ensures cleared == ClearMoved(entries, pt)
    {
      cleared := entries;
      var i := 0;
      while i < |entries|
        invariant 0 <= i <= |entries| == |cleared|
        invariant forall j | 0 <= j < i :: cleared[j] == ClearMoved(entries, pt)[j]
        invariant forall j | i <= j < |entries| :: cleared[j] == entries[j]
      {
        if cleared[i].id in pt.keys {
          cleared := cleared[i := cleared[i].(keyPath := None)];
        }
        i := i + 1;
      }
    }

    /** Unlinks the files the keys came from, then the old warning's marker, whose own removal may fail unnoticed. */
    method RemoveOriginals(pt: Plaintext) returns (fault: Fault)
      requires dir.Valid()
      modifies dir
      ensures dir.Valid() && old(dir.history) <= dir.history
      ensures fault == Ok ==> dir.files - {Warn} == old(dir.files) - pt.keyFiles.Values - {Warn}
      ensures forall k | |old(dir.history)| <= k < |dir.history| :: Cleaning(old(dir.files), dir.history[k], pt)
      ensures Cleaning(old(dir.files), dir.files, pt)
    {
      ghost var was := dir.files;
      var rest := pt.keyFiles.Values;
      fault := Ok;
      while rest != {}
        invariant dir.Valid() && old(dir.history) <= dir.history && fault == Ok
        invariant rest <= pt.keyFiles.Values && Cleaning(was, dir.files, pt)
        invariant forall f | f in pt.keyFiles.Values - rest :: f !in dir.files
        invariant Warn in was ==> Warn in dir.files || Warn in pt.keyFiles.Values
        invariant forall k | |old(dir.history)| <= k < |dir.history| :: Cleaning(was, dir.history[k], pt)
        decreases rest
      {
        var path :| path in rest;
        fault := dir.Remove(path);
        if fault != Ok {
          return;
        }
        rest := rest - {path};
      }
      CleanedUp(was, dir.files, pt);
      ghost var cleaned := dir.files;
      var ignored := dir.Remove(Warn);
      assert dir.files - {Warn} == cleaned - {Warn};
    }

    /** Steps 1 and 2: the copy is kept, then the vault is filled and sealed. */
    method Seal(pt: Plaintext, secrets: Secrets, passphrase: string) returns (kept: bool, filled: Secrets, fault: Fault)
      requires dir.Valid()
      modifies dir
      ensures dir.Valid() && old(dir.history) <= dir.history
      ensures fault == Ok ==>
                && dir.files == SealedDisk(old(dir.files), pt, secrets, passphrase)
                && filled == Filled(secrets, pt) && kept == (ServersJson in old(dir.files))
      ensures AllCrashed(dir.history, |old(dir.history)|, old(dir.files), pt, secrets, passphrase)
      ensures Crashed(old(dir.files), dir.files, pt, secrets, passphrase)
    {
      ghost var d0, n := dir.files, |dir.history|;
      filled := secrets;
      kept, fault := KeepBackup();
      assert AllCrashed(dir.history, n, d0, pt, secrets, passphrase);
      if fault != Ok {
        return;
      }
      var passwords := FillFrom(secrets.passwords, pt.passwords);
      var keys := FillFrom(secrets.keys, pt.keys);
      filled := secrets.(passwords := passwords, keys := keys);
      ghost var h := dir.history;
      fault := SaveSecrets(filled, passphrase);
      SealingStates(d0, pt, secrets, passphrase);
      assert AllCrashed(dir.history, |h|, d0, pt, secrets, passphrase);
      AllCrashedOn(h, dir.history, n, d0, pt, secrets, passphrase);
    }

    /** Step 3: the list is rewritten without passwords, and without the paths of the keys that moved. */
    method Rewrite(pt: Plaintext, ghost d0: Disk, ghost secrets: Secrets, ghost passphrase: string) returns (fault: Fault)
      requires dir.Valid() && dir.files == SealedDisk(d0, pt, secrets, passphrase)
      modifies dir
      ensures dir.Valid() && old(dir.history) <= dir.history
      ensures fault == Ok ==> dir.files == RewrittenDisk(d0, pt, secrets, passphrase)
      ensures AllCrashed(dir.history, |old(dir.history)|, d0, pt, secrets, passphrase)
      ensures Crashed(d0, dir.files, pt, secrets, passphrase)
    {
      RewritingStates(d0, pt, secrets, passphrase);
      var servers;
      servers, fault := Load();
      if fault != Ok {
        return;
      }
      servers := ClearPaths(servers, pt);
      fault := Save(servers);
    }

    /** Steps 3 and 4: the list, then the originals. */
    method Finish(pt: Plaintext, ghost d0: Disk, ghost secrets: Secrets, ghost passphrase: string) returns (fault: Fault)
      requires dir.Valid() && dir.files == SealedDisk(d0, pt, secrets, passphrase)
      modifies dir
      ensures dir.Valid() && old(dir.history) <= dir.history
      ensures fault == Ok ==> Migrated(d0, dir.files, pt, secrets, passphrase)
      ensures AllCrashed(dir.history, |old(dir.history)|, d0, pt, secrets, passphrase)
      ensures Crashed(d0, dir.files, pt, secrets, passphrase)
    {
      ghost var n := |dir.history|;
      fault := Rewrite(pt, d0, secrets, passphrase);
      if fault != Ok {
        return;
      }
      ghost var h := dir.history;
      fault := RemoveOriginals(pt);
      assert AllCrashed(dir.history, |h|, d0, pt, secrets, passphrase);
      AllCrashedOn(h, dir.history, n, d0, pt, secrets, passphrase);
    }

    /**
     * Seal first, rewrite second, unlink last. Every state the directory goes
     * through is one of Crashed's, and finishing gives Migrated.
     */
    method Migrate(pt: Plaintext, secrets: Secrets, passphrase: string) returns (report: Report, filled: Secrets, fault: Fault)
      requires dir.Valid()
      modifies dir
      ensures dir.Valid() && old(dir.history) <= dir.history
      ensures !pt.Any() ==> fault == Ok && dir.files == old(dir.files) && dir.history == old(dir.history) && filled == secrets
      ensures pt.Any() && fault == Ok ==>
                && Migrated(old(dir.files), dir.files, pt, secrets, passphrase)
                && filled == Filled(secrets, pt)
                && report == Report(|pt.passwords|, |pt.keys|, ServersJson in old(dir.files))
      ensures AllCrashed(dir.history, |old(dir.history)|, old(dir.files), pt, secrets, passphrase)
      ensures Crashed(old(dir.files), dir.files, pt, secrets, passphrase)
    {
      report, filled, fault := Report(0, 0, false), secrets, Ok;
      ghost var d0, n := dir.files, |dir.history|;
      if !pt.Any() {
        assert Unsealed(d0, d0);
        return;
      }
      var kept;
      kept, filled, fault := Seal(pt, secrets, passphrase);
      if fault != Ok {
        return;
      }
      report := Report(|pt.passwords|, |pt.keys|, kept);

      ghost var h := dir.history;
      fault := Finish(pt, d0, secrets, passphrase);
      AllCrashedOn(h, dir.history, n, d0, pt, secrets, passphrase);
    }
  }
}
