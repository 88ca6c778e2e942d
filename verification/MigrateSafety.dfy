/**
 * What a migration guarantees of the user's secrets: at every point where it
 * could die, when it is run again, and when it is done.
 */
module MigrateSafety {
  import opened Options
  import opened Vault
  import opened Migrate

  // ---------------------------------------------------------------- what a scan finds

  /** The last entry with this id and a password has this one. */
  ghost predicate LastPassword(entries: seq<Entry>, id: string, password: string) {
    exists i :: 0 <= i < |entries| && entries[i].id == id && entries[i].password == password != ""
      && forall j | i < j < |entries| :: entries[j].id == id ==> entries[j].password == ""
  }

  lemma {:induction false} ScannedPasswords(d: Disk, entries: seq<Entry>, id: string)
    ensures var found := ScanEntries(d, entries).passwords;
            id in found ==> id != "" && LastPassword(entries, id, found[id])
    ensures id != "" && (exists i :: 0 <= i < |entries| && entries[i].id == id && entries[i].password != "") ==>
              id in ScanEntries(d, entries).passwords
  {
    if entries != [] {
      var n := |entries| - 1;
      var rest := entries[..n];
      ScannedPasswords(d, rest, id);
      var found := ScanEntries(d, entries).passwords;
      if id in found {
        if entries[n].id == id && entries[n].password != "" {
          assert found[id] == entries[n].password;
        } else {
          var i :| 0 <= i < n && rest[i].id == id && rest[i].password == found[id] != ""
            && forall j | i < j < n :: rest[j].id == id ==> rest[j].password == "";
          assert entries[i] == rest[i];
          assert forall j | i < j < |entries| :: entries[j].id == id ==> entries[j].password == "" by {
            assert forall j | i < j < n :: entries[j] == rest[j];
          }
        }
      }
      if i :| 0 <= i < |entries| && entries[i].id == id && entries[i].password != "" {
        assert i < n ==> rest[i] == entries[i];
      }
    }
  }

  ghost predicate HasKeyPath(entries: seq<Entry>, id: string, path: File) {
    exists i :: 0 <= i < |entries| && entries[i].id == id && entries[i].keyPath == Some(path)
  }

  lemma {:induction false} ScannedKeys(d: Disk, entries: seq<Entry>, id: string)
    ensures var pt := ScanEntries(d, entries);
            && (id in pt.keys <==> id in pt.keyFiles)
            && (id in pt.keys ==>
                  && id != "" && pt.keyFiles[id].KeyFile? && pt.keyFiles[id] in d
                  && pt.keys[id] == Body(d[pt.keyFiles[id]]) && HasKeyPath(entries, id, pt.keyFiles[id]))
    ensures forall i | 0 <= i < |entries| && entries[i].id == id != "" && Owned(entries[i].keyPath) && entries[i].keyPath.value in d ::
              id in ScanEntries(d, entries).keys
  {
    if entries != [] {
      var n := |entries| - 1;
      var rest := entries[..n];
      ScannedKeys(d, rest, id);
      var pt, before := ScanEntries(d, entries), ScanEntries(d, rest);
      if id in pt.keys {
        if id in before.keys && pt.keyFiles[id] == before.keyFiles[id] {
          var i :| 0 <= i < n && rest[i].id == id && rest[i].keyPath == Some(pt.keyFiles[id]);
          assert entries[i] == rest[i];
        }
      }
      forall i | 0 <= i < |entries| && entries[i].id == id != "" && Owned(entries[i].keyPath) && entries[i].keyPath.value in d
        ensures id in pt.keys
      {
        assert i < n ==> rest[i] == entries[i];
      }
    }
  }

  // ---------------------------------------------------------------- no secret is ever lost

  ghost predicate PasswordThere(d: Disk, passphrase: string, id: string, password: string) {
    || (exists i :: 0 <= i < |Listed(d)| && Listed(d)[i].id == id && Listed(d)[i].password == password)
    || VaultHasPassword(d, passphrase, id, password)
  }

  predicate VaultHasPassword(d: Disk, passphrase: string, id: string, password: string) {
    var s := LoadSecrets(d, passphrase);
    s.Some? && id in s.value.passwords && s.value.passwords[id] == password
  }

  predicate KeyThere(d: Disk, passphrase: string, id: string, path: File, body: string) {
    || (path in d && Body(d[path]) == body)
    || VaultHasKey(d, passphrase, id, body)
  }

  predicate VaultHasKey(d: Disk, passphrase: string, id: string, body: string) {
    var s := LoadSecrets(d, passphrase);
    s.Some? && id in s.value.keys && s.value.keys[id] == body
  }

  lemma UnsealedSame(d0: Disk, d: Disk, f: File)
    requires Unsealed(d0, d) && f != Backup && f != VaultTmp
    ensures f in d <==> f in d0
    ensures f in d ==> d[f] == d0[f]
  {
    assert f in d - {Backup, VaultTmp} <==> f in d0 - {Backup, VaultTmp};
    assert f in d ==> (d - {Backup, VaultTmp})[f] == (d0 - {Backup, VaultTmp})[f];
  }

  lemma UnwrittenSame(d0: Disk, d: Disk, pt: Plaintext, secrets: Secrets, passphrase: string, f: File)
    requires Unwritten(d0, d, pt, secrets, passphrase) && f != ServersTmp
    ensures var sealed := SealedDisk(d0, pt, secrets, passphrase);
            (f in d <==> f in sealed) && (f in d ==> d[f] == sealed[f])
  {
    var sealed := SealedDisk(d0, pt, secrets, passphrase);
    assert f in d - {ServersTmp} <==> f in sealed - {ServersTmp};
    assert f in d ==> (d - {ServersTmp})[f] == (sealed - {ServersTmp})[f];
  }

  lemma {:induction false} ScanReadsKeyFilesOnly(d0: Disk, d: Disk, entries: seq<Entry>)
    requires forall f: File | f.KeyFile? :: (f in d <==> f in d0) && (f in d ==> d[f] == d0[f])
    ensures ScanEntries(d, entries) == ScanEntries(d0, entries)
  {
    if entries != [] {
      ScanReadsKeyFilesOnly(d0, d, entries[..|entries| - 1]);
    }
  }

  lemma KeyFilesAreOurs(d0: Disk)
    ensures forall f | f in Scan(d0).keyFiles.Values :: f.KeyFile? && f in d0
  {
    forall f | f in Scan(d0).keyFiles.Values ensures f.KeyFile? && f in d0 {
      var id :| id in Scan(d0).keyFiles && Scan(d0).keyFiles[id] == f;
      ScannedKeys(d0, Listed(d0), id);
    }
  }

  /** Whatever the rewritten state holds that is neither a moved key's file nor the marker stays. */
  lemma CleaningSame(r: Disk, d: Disk, pt: Plaintext, f: File)
    requires Cleaning(r, d, pt) && f !in pt.keyFiles.Values && f != Warn
    ensures f in d <==> f in r
    ensures f in d ==> d[f] == r[f]
  {
  }

  lemma VaultIsFilled(seen: Disk, d0: Disk, d: Disk, secrets: Secrets, passphrase: string)
    requires LoadSecrets(d0, passphrase) == Some(secrets)
    requires Crashed(d0, d, Scan(seen), secrets, passphrase)
    ensures LoadSecrets(d, passphrase) == Some(if Unsealed(d0, d) then secrets else Filled(secrets, Scan(seen)))
  {
    var pt := Scan(seen);
    if Unsealed(d0, d) {
      UnsealedSame(d0, d, VaultAge);
    } else if Unwritten(d0, d, pt, secrets, passphrase) {
      UnwrittenSame(d0, d, pt, secrets, passphrase, VaultAge);
    } else {
      KeyFilesAreOurs(seen);
      CleaningSame(RewrittenDisk(d0, pt, secrets, passphrase), d, pt, VaultAge);
    }
  }

  /**
   * s holds what `held` holds, but for the scanned ids: the scanned password,
   * and the scanned key, or none if that was empty.
   */
  ghost predicate TookIn(held: Secrets, pt: Plaintext, s: Secrets) {
    && s.rest == held.rest
    && (forall id :: Lookup(s.passwords, id) == if id in pt.passwords then pt.passwords[id] else Lookup(held.passwords, id))
    && (forall id :: Lookup(s.keys, id) == if id in pt.keys then pt.keys[id] else Lookup(held.keys, id))
    && (forall id :: id in s.passwords <==> id in pt.passwords || id in held.passwords)
    && (forall id :: id in s.keys <==> if id in pt.keys then pt.keys[id] != "" else id in held.keys)
  }

  lemma FilledTookIn(seen: Disk, secrets: Secrets)
    ensures TookIn(secrets, Scan(seen), Filled(secrets, Scan(seen)))
  {
    var pt, s := Scan(seen), Filled(secrets, Scan(seen));
    forall id
      ensures Lookup(s.passwords, id) == if id in pt.passwords then pt.passwords[id] else Lookup(secrets.passwords, id)
      ensures Lookup(s.keys, id) == if id in pt.keys then pt.keys[id] else Lookup(secrets.keys, id)
    {
      FillHolds(secrets.passwords, pt.passwords, id);
      FillHolds(secrets.keys, pt.keys, id);
    }
    forall id ensures id in s.passwords <==> id in pt.passwords || id in secrets.passwords {
      ScannedPasswords(seen, Listed(seen), id);
    }
  }

  /**
   * The scan is taken before the passphrase is asked for, so of a disk `seen`
   * that need not be the one the migration finds. The vault holds what it
   * held, or that with everything scanned in its place; nothing in between.
   */
  lemma VaultIsWhole(seen: Disk, d0: Disk, d: Disk, secrets: Secrets, passphrase: string)
    requires LoadSecrets(d0, passphrase) == Some(secrets)
    requires Crashed(d0, d, Scan(seen), secrets, passphrase)
    ensures var s := LoadSecrets(d, passphrase);
            s.Some? && if Unsealed(d0, d) then s.value == secrets else TookIn(secrets, Scan(seen), s.value)
  {
    VaultIsFilled(seen, d0, d, secrets, passphrase);
    FilledTookIn(seen, secrets);
  }

  /**
   * Wherever the migration dies, a scanned password, and a scanned key that is
   * not empty, is in the list, its file or the vault if it was when the
   * migration began, and once the vault is sealed in any case; and the vault
   * still has what it held for other ids.
   */
  lemma NothingScannedIsLost(seen: Disk, d0: Disk, d: Disk, secrets: Secrets, passphrase: string, id: string)
    requires LoadSecrets(d0, passphrase) == Some(secrets)
    requires Crashed(d0, d, Scan(seen), secrets, passphrase)
    ensures var pt := Scan(seen); id in pt.passwords ==>
              (PasswordThere(d, passphrase, id, pt.passwords[id]) <==>
               !Unsealed(d0, d) || PasswordThere(d0, passphrase, id, pt.passwords[id]))
    ensures var pt := Scan(seen); id in pt.keys && pt.keys[id] != "" ==>
              && id in pt.keyFiles
              && (KeyThere(d, passphrase, id, pt.keyFiles[id], pt.keys[id]) <==>
                  !Unsealed(d0, d) || KeyThere(d0, passphrase, id, pt.keyFiles[id], pt.keys[id]))
    ensures id in secrets.passwords && id !in Scan(seen).passwords ==> VaultHasPassword(d, passphrase, id, secrets.passwords[id])
    ensures id in secrets.keys && id !in Scan(seen).keys ==> VaultHasKey(d, passphrase, id, secrets.keys[id])
  {
    var pt := Scan(seen);
    VaultIsFilled(seen, d0, d, secrets, passphrase);
    ScannedPasswords(seen, Listed(seen), id);
    ScannedKeys(seen, Listed(seen), id);
    if Unsealed(d0, d) {
      UnsealedSame(d0, d, ServersJson);
      assert Listed(d) == Listed(d0);
      if id in pt.keys {
        UnsealedSame(d0, d, pt.keyFiles[id]);
      }
    }
  }

  /** So where nothing changed since the scan, each scanned secret is in its file or in the vault throughout. */
  lemma NothingIsLost(d0: Disk, d: Disk, secrets: Secrets, passphrase: string, id: string)
    requires LoadSecrets(d0, passphrase) == Some(secrets)
    requires Crashed(d0, d, Scan(d0), secrets, passphrase)
    ensures id in Scan(d0).passwords ==> PasswordThere(d, passphrase, id, Scan(d0).passwords[id])
    ensures id in Scan(d0).keys && Scan(d0).keys[id] != "" ==>
              id in Scan(d0).keyFiles && KeyThere(d, passphrase, id, Scan(d0).keyFiles[id], Scan(d0).keys[id])
  {
    NothingScannedIsLost(d0, d0, d, secrets, passphrase, id);
    ScannedPasswords(d0, Listed(d0), id);
    ScannedKeys(d0, Listed(d0), id);
  }

  /**
   * What the vault held for an id it still holds exactly if it is not sealed
   * again yet, or the scan found nothing for the id, or found just that.
   */
  lemma VaultKeepsWhen(seen: Disk, d0: Disk, d: Disk, secrets: Secrets, passphrase: string, id: string)
    requires LoadSecrets(d0, passphrase) == Some(secrets)
    requires Crashed(d0, d, Scan(seen), secrets, passphrase)
    ensures id in secrets.passwords ==>
              (VaultHasPassword(d, passphrase, id, secrets.passwords[id]) <==>
               Unsealed(d0, d) || id !in Scan(seen).passwords || Scan(seen).passwords[id] == secrets.passwords[id])
    ensures id in secrets.keys ==>
              (VaultHasKey(d, passphrase, id, secrets.keys[id]) <==>
               Unsealed(d0, d) || id !in Scan(seen).keys || (Scan(seen).keys[id] == secrets.keys[id] != ""))
  {
    VaultIsFilled(seen, d0, d, secrets, passphrase);
    ScannedPasswords(seen, Listed(seen), id);
  }

  /**
   * A password the list has when the migration begins is, once it is done, in
   * the vault exactly if the scan found it or, the scan having found none for
   * its id, the vault held it already; if not, the backup alone has it.
   */
  lemma ListedPasswordStaysWhen(seen: Disk, d0: Disk, d: Disk, secrets: Secrets, passphrase: string, e: Entry)
    requires LoadSecrets(d0, passphrase) == Some(secrets)
    requires Migrated(d0, d, Scan(seen), secrets, passphrase) && e in Listed(d0) && e.password != ""
    ensures PasswordThere(d, passphrase, e.id, e.password) <==>
            var found := Scan(seen).passwords;
            if e.id in found then found[e.id] == e.password
            else e.id in secrets.passwords && secrets.passwords[e.id] == e.password
    ensures Backup in d && d[Backup] == d0[ServersJson]
  {
    var pt := Scan(seen);
    KeyFilesAreOurs(seen);
    ScannedPasswords(seen, Listed(seen), e.id);
    MigratedSame(d0, d, pt, secrets, passphrase, VaultAge);
    MigratedSame(d0, d, pt, secrets, passphrase, Backup);
    MigratedSame(d0, d, pt, secrets, passphrase, ServersJson);
    assert LoadSecrets(d, passphrase) == Some(Filled(secrets, pt));
    assert forall i | 0 <= i < |Listed(d)| :: Listed(d)[i].password == "";
  }

  /** A list whose one password was scanned, and the same list once another entry was saved in the clear. */
  const SCANNED: Disk := map[ServersJson := Servers([Entry("a", "x", None, "")])]
  const SAVED_SINCE: Disk := map[ServersJson := Servers([Entry("a", "x", None, ""), Entry("b", "y", None, "")])]

  /** The password saved between the scan and the passphrase is in the backup alone. */
  lemma ASecretSavedMeanwhile(d: Disk)
    requires Migrated(SAVED_SINCE, d, Scan(SCANNED), NO_SECRETS, "pw")
    ensures Scan(SCANNED).Any() && PasswordThere(SAVED_SINCE, "pw", "b", "y") && !PasswordThere(d, "pw", "b", "y")
  {
    var e := Listed(SAVED_SINCE)[1];
    assert ScanEntries(SCANNED, []) == NOTHING;
    assert Listed(SCANNED)[..0] == [];
    assert Scan(SCANNED) == ScanEntry(SCANNED, NOTHING, Listed(SCANNED)[0]);
    assert "a" in Scan(SCANNED).passwords;
    assert e == Entry("b", "y", None, "");
    ListedPasswordStaysWhen(SCANNED, SAVED_SINCE, d, NO_SECRETS, "pw", e);
  }

  /** One server, an empty file of ours for its key, and a key for it in the vault. */
  const EMPTY_KEY_FILE: Disk :=
    map[ServersJson := Servers([Entry("a", "", Some(KeyFile("a")), "")]), KeyFile("a") := Key(""),
        VaultAge := Sealed(Secrets(map[], map["a" := "k"], ""), "pw")]

  lemma EmptyKeyScanned()
    ensures Scan(EMPTY_KEY_FILE) == Plaintext(map[], map["a" := ""], map["a" := KeyFile("a")])
  {
    assert ScanEntries(EMPTY_KEY_FILE, []) == NOTHING;
    assert Listed(EMPTY_KEY_FILE)[..0] == [];
    assert Scan(EMPTY_KEY_FILE) == ScanEntry(EMPTY_KEY_FILE, NOTHING, Listed(EMPTY_KEY_FILE)[0]);
  }

  /** An empty key file takes the vault's key for that server with it. */
  lemma AnEmptyKeyFileErases(d: Disk)
    requires Migrated(EMPTY_KEY_FILE, d, Scan(EMPTY_KEY_FILE), Secrets(map[], map["a" := "k"], ""), "pw")
    ensures Scan(EMPTY_KEY_FILE).Any() && VaultHasKey(EMPTY_KEY_FILE, "pw", "a", "k")
    ensures LoadSecrets(d, "pw").Some? && "a" !in LoadSecrets(d, "pw").value.keys
  {
    EmptyKeyScanned();
    MigratedSecrets(EMPTY_KEY_FILE, d, Secrets(map[], map["a" := "k"], ""), "pw");
  }

  // ---------------------------------------------------------------- running it again

  /** Up to the rewrite of the list a new scan finds what the first one found. */
  lemma ScanBeforeTheRewrite(d0: Disk, d: Disk, secrets: Secrets, passphrase: string)
    requires Unsealed(d0, d) || Unwritten(d0, d, Scan(d0), secrets, passphrase)
    ensures Listed(d) == Listed(d0) && Scan(d) == Scan(d0)
    ensures ServersJson in d <==> ServersJson in d0
    ensures ServersJson in d0 ==> d[ServersJson] == d0[ServersJson]
  {
    if Unsealed(d0, d) {
      UnsealedSame(d0, d, ServersJson);
      forall f: File | f.KeyFile? ensures (f in d <==> f in d0) && (f in d ==> d[f] == d0[f]) {
        UnsealedSame(d0, d, f);
      }
    } else {
      UnwrittenSame(d0, d, Scan(d0), secrets, passphrase, ServersJson);
      forall f: File | f.KeyFile? ensures (f in d <==> f in d0) && (f in d ==> d[f] == d0[f]) {
        UnwrittenSame(d0, d, Scan(d0), secrets, passphrase, f);
      }
    }
    ScanReadsKeyFilesOnly(d0, d, Listed(d0));
  }

  lemma ScanNeedsAList(d: Disk)
    requires Scan(d).Any()
    ensures ServersJson in d
  {
  }

  /** What stood in the two temporaries, the backup and the vault does not matter to where a migration ends. */
  lemma SameRewritten(d0: Disk, d: Disk, pt: Plaintext, s0: Secrets, s: Secrets, passphrase: string)
    requires ServersJson in d0 && ServersJson in d && d[ServersJson] == d0[ServersJson]
    requires forall f | f !in {Backup, VaultTmp, VaultAge, ServersTmp} :: (f in d <==> f in d0) && (f in d ==> d[f] == d0[f])
    requires Filled(s, pt) == Filled(s0, pt)
    ensures RewrittenDisk(d, pt, s, passphrase) == RewrittenDisk(d0, pt, s0, passphrase)
  {
    var a, b := RewrittenDisk(d, pt, s, passphrase), RewrittenDisk(d0, pt, s0, passphrase);
    assert Listed(d) == Listed(d0);
    forall f: File ensures (f in a <==> f in b) && (f in a ==> a[f] == b[f]) {
    }
    assert a.Keys == b.Keys;
  }

  /** A migration taken up again before the list is rewritten ends where the first would have. */
  lemma RerunEndsTheSame(d0: Disk, d: Disk, d2: Disk, s0: Secrets, s: Secrets, passphrase: string)
    requires LoadSecrets(d0, passphrase) == Some(s0) && Scan(d0).Any()
    requires Unsealed(d0, d) || Unwritten(d0, d, Scan(d0), s0, passphrase)
    requires LoadSecrets(d, passphrase) == Some(s)
    ensures Migrated(d, d2, Scan(d), s, passphrase) <==> Migrated(d0, d2, Scan(d0), s0, passphrase)
  {
    var pt := Scan(d0);
    ScanBeforeTheRewrite(d0, d, s0, passphrase);
    ScanNeedsAList(d0);
    VaultIsFilled(d0, d0, d, s0, passphrase);
    FillTwice(s0.passwords, pt.passwords);
    FillTwice(s0.keys, pt.keys);
    forall f: File | f !in {Backup, VaultTmp, VaultAge, ServersTmp}
      ensures (f in d <==> f in d0) && (f in d ==> d[f] == d0[f])
    {
      if Unsealed(d0, d) {
        UnsealedSame(d0, d, f);
      } else {
        UnwrittenSame(d0, d, pt, s0, passphrase, f);
      }
    }
    SameRewritten(d0, d, pt, s0, s, passphrase);
  }

  /** No password and no path of an owned file is left in a list: nothing to scan. */
  lemma {:induction false} NothingToScan(d: Disk, entries: seq<Entry>)
    requires forall e | e in entries :: e.password == "" && !(e.id != "" && Owned(e.keyPath) && e.keyPath.value in d)
    ensures ScanEntries(d, entries) == NOTHING
  {
    if entries != [] {
      NothingToScan(d, entries[..|entries| - 1]);
      assert entries[|entries| - 1] in entries;
    }
  }

  /** Once the list is rewritten a scan finds nothing, whether or not the originals are gone. */
  lemma ScanAfterTheRewrite(d0: Disk, d: Disk, secrets: Secrets, passphrase: string)
    requires Cleaning(RewrittenDisk(d0, Scan(d0), secrets, passphrase), d, Scan(d0))
    ensures Scan(d) == NOTHING
    ensures Listed(d) == NoPasswords(ClearMoved(Listed(d0), Scan(d0)))
  {
    var pt, old0 := Scan(d0), Listed(d0);
    KeyFilesAreOurs(d0);
    CleaningSame(RewrittenDisk(d0, pt, secrets, passphrase), d, pt, ServersJson);
    var now := NoPasswords(ClearMoved(old0, pt));
    forall e | e in now ensures e.password == "" && !(e.id != "" && Owned(e.keyPath) && e.keyPath.value in d) {
      var i :| 0 <= i < |now| && now[i] == e;
      ScannedKeys(d0, old0, e.id);
      assert e.id == old0[i].id;
    }
    NothingToScan(d, now);
  }

  /** What a second run makes of d: nothing to move, nothing done. */
  ghost predicate Rerun(d: Disk, d2: Disk, s: Secrets, passphrase: string) {
    if Scan(d).Any() then Migrated(d, d2, Scan(d), s, passphrase) else d2 == d
  }

  /**
   * A second run finishes the first one exactly if it still finds something
   * to move, or if no key file was left to remove.
   */
  lemma RerunFinishes(d0: Disk, d: Disk, d2: Disk, s0: Secrets, s: Secrets, passphrase: string)
    requires LoadSecrets(d0, passphrase) == Some(s0) && Scan(d0).Any()
    requires Crashed(d0, d, Scan(d0), s0, passphrase)
    requires LoadSecrets(d, passphrase) == Some(s) && Rerun(d, d2, s, passphrase)
    ensures Migrated(d0, d2, Scan(d0), s0, passphrase) <==>
            Scan(d).Any() || forall f | f in Scan(d0).keyFiles.Values :: f !in d
  {
    var pt := Scan(d0);
    if Unsealed(d0, d) || Unwritten(d0, d, pt, s0, passphrase) {
      ScanBeforeTheRewrite(d0, d, s0, passphrase);
      RerunEndsTheSame(d0, d, d2, s0, s, passphrase);
    } else {
      var r := RewrittenDisk(d0, pt, s0, passphrase);
      ScanAfterTheRewrite(d0, d, s0, passphrase);
      KeyFilesAreOurs(d0);
      if forall f | f in pt.keyFiles.Values :: f !in d {
        CleanedUp(r, d, pt);
      } else {
        var f :| f in pt.keyFiles.Values && f in d;
        assert f in d - {Warn} && f !in r - pt.keyFiles.Values - {Warn};
      }
    }
  }

  /** One server, its key in a file of ours. */
  const ONE_KEY: Disk := map[ServersJson := Servers([Entry("a", "", Some(KeyFile("a")), "")]), KeyFile("a") := Key("k")]

  lemma OneKeyScanned()
    ensures Scan(ONE_KEY) == Plaintext(map[], map["a" := "k"], map["a" := KeyFile("a")])
  {
    assert ScanEntries(ONE_KEY, []) == NOTHING;
    assert Listed(ONE_KEY)[..0] == [];
    assert Scan(ONE_KEY) == ScanEntry(ONE_KEY, NOTHING, Listed(ONE_KEY)[0]);
  }

  /** A crash between the rewrite and the removals leaves a key file no later run removes. */
  lemma AKeyFileCanBeLeftBehind()
    ensures var d := RewrittenDisk(ONE_KEY, Scan(ONE_KEY), NO_SECRETS, "pw");
            && Crashed(ONE_KEY, d, Scan(ONE_KEY), NO_SECRETS, "pw")
            && KeyFile("a") in Scan(ONE_KEY).keyFiles.Values
            && forall d2, s | LoadSecrets(d, "pw") == Some(s) && Rerun(d, d2, s, "pw") :: KeyFile("a") in d2
  {
    var pt := Scan(ONE_KEY);
    OneKeyScanned();
    assert pt.keyFiles["a"] == KeyFile("a");
    var d := RewrittenDisk(ONE_KEY, pt, NO_SECRETS, "pw");
    assert Cleaning(d, d, pt);
    ScanAfterTheRewrite(ONE_KEY, d, NO_SECRETS, "pw");
    assert KeyFile("a") in d;
  }

  // ---------------------------------------------------------------- when it is done

  lemma MigratedSame(d0: Disk, d: Disk, pt: Plaintext, secrets: Secrets, passphrase: string, f: File)
    requires Migrated(d0, d, pt, secrets, passphrase) && f != Warn
    ensures var r := RewrittenDisk(d0, pt, secrets, passphrase);
            (f in d <==> f in r && f !in pt.keyFiles.Values) && (f in d ==> d[f] == r[f])
  {
    var r := RewrittenDisk(d0, pt, secrets, passphrase) - pt.keyFiles.Values;
    assert f in d - {Warn} <==> f in r - {Warn};
    assert f in d ==> (d - {Warn})[f] == (r - {Warn})[f];
  }

  /** The list keeps its entries, without passwords, and without the path exactly where the scan found a key for the id. */
  lemma MigratedList(d0: Disk, d: Disk, secrets: Secrets, passphrase: string)
    requires Migrated(d0, d, Scan(d0), secrets, passphrase)
    ensures |Listed(d)| == |Listed(d0)|
    ensures forall i | 0 <= i < |Listed(d)| ::
              && Listed(d)[i].id == Listed(d0)[i].id && Listed(d)[i].rest == Listed(d0)[i].rest
              && Listed(d)[i].password == ""
              && Listed(d)[i].keyPath == if Listed(d0)[i].id in Scan(d0).keys then None else Listed(d0)[i].keyPath
  {
    KeyFilesAreOurs(d0);
    MigratedSame(d0, d, Scan(d0), secrets, passphrase, ServersJson);
  }

  lemma MigratedScan(d0: Disk, d: Disk, secrets: Secrets, passphrase: string)
    requires Migrated(d0, d, Scan(d0), secrets, passphrase)
    ensures Scan(d) == NOTHING
  {
    var pt := Scan(d0);
    var r := RewrittenDisk(d0, pt, secrets, passphrase);
    var cleaned := r - pt.keyFiles.Values;
    KeyFilesAreOurs(d0);
    assert Cleaning(r, cleaned, pt);
    ScanAfterTheRewrite(d0, cleaned, secrets, passphrase);
    MigratedSame(d0, d, pt, secrets, passphrase, ServersJson);
    assert Listed(d) == Listed(cleaned);
    forall f: File | f.KeyFile? ensures (f in d <==> f in cleaned) && (f in d ==> d[f] == cleaned[f]) {
      MigratedSame(d0, d, pt, secrets, passphrase, f);
    }
    ScanReadsKeyFilesOnly(cleaned, d, Listed(d));
  }

  /** Everything found is in the vault, none of it in the open, and the list as it was is in the backup. */
  lemma MigratedSecrets(d0: Disk, d: Disk, secrets: Secrets, passphrase: string)
    requires Migrated(d0, d, Scan(d0), secrets, passphrase)
    ensures LoadSecrets(d, passphrase).Some? && TookIn(secrets, Scan(d0), LoadSecrets(d, passphrase).value)
    ensures forall p | LoadSecrets(d, p).Some? :: p == passphrase
    ensures forall f | f in Scan(d0).keyFiles.Values :: f !in d
    ensures Scan(d) == NOTHING
    ensures ServersJson in d0 ==> Backup in d && d[Backup] == d0[ServersJson]
    ensures VaultTmp !in d && ServersTmp !in d
  {
    var pt := Scan(d0);
    MigratedScan(d0, d, secrets, passphrase);
    FilledTookIn(d0, secrets);
    KeyFilesAreOurs(d0);
    MigratedSame(d0, d, pt, secrets, passphrase, VaultAge);
    MigratedSame(d0, d, pt, secrets, passphrase, Backup);
    MigratedSame(d0, d, pt, secrets, passphrase, VaultTmp);
    MigratedSame(d0, d, pt, secrets, passphrase, ServersTmp);
    forall f | f in pt.keyFiles.Values ensures f !in d {
      MigratedSame(d0, d, pt, secrets, passphrase, f);
    }
  }

  /** The user's own files and every key file the list did not name are as they were. */
  lemma MigratedLeavesTheRest(d0: Disk, d: Disk, secrets: Secrets, passphrase: string, f: File)
    requires Migrated(d0, d, Scan(d0), secrets, passphrase)
    requires f.UserFile? || (f.KeyFile? && forall i | 0 <= i < |Listed(d0)| :: Listed(d0)[i].keyPath != Some(f))
    ensures (f in d <==> f in d0) && (f in d ==> d[f] == d0[f])
  {
    KeyFilesAreOurs(d0);
    MigratedSame(d0, d, Scan(d0), secrets, passphrase, f);
    forall id | id in Scan(d0).keyFiles ensures Scan(d0).keyFiles[id] != f {
      ScannedKeys(d0, Listed(d0), id);
    }
  }

  // ---------------------------------------------------------------- what the scan passes over

  /** The entry's password is the one that goes to the vault. */
  predicate PasswordMoves(d: Disk, e: Entry) {
    e.password != "" ==> e.id in Scan(d).passwords && Scan(d).passwords[e.id] == e.password
  }

  /** Every password in the list goes to the vault exactly if none has an empty id and no id has two. */
  lemma AllPasswordsMove(d: Disk)
    ensures (forall e | e in Listed(d) :: PasswordMoves(d, e)) <==>
            && (forall e | e in Listed(d) && e.password != "" :: e.id != "")
            && (forall e, e' | e in Listed(d) && e' in Listed(d) && e.id == e'.id && e.password != "" && e'.password != "" ::
                  e.password == e'.password)
  {
    var es := Listed(d);
    forall id: string
      ensures id in Scan(d).passwords ==> id != "" && exists e :: e in es && e.id == id && e.password == Scan(d).passwords[id] != ""
      ensures id != "" && (exists e :: e in es && e.id == id && e.password != "") ==> id in Scan(d).passwords
    {
      ScannedPasswords(d, es, id);
      if id in Scan(d).passwords {
        var i :| 0 <= i < |es| && es[i].id == id && es[i].password == Scan(d).passwords[id] != "";
        assert es[i] in es;
      }
    }
    if (forall e | e in es && e.password != "" :: e.id != "")
      && (forall e, e' | e in es && e' in es && e.id == e'.id && e.password != "" && e'.password != "" :: e.password == e'.password)
    {
      forall e | e in es ensures PasswordMoves(d, e) {
        if e.password != "" {
          assert e.id in Scan(d).passwords;
        }
      }
    }
  }

  /** The entry's key file is ours and there. */
  predicate OwnedThere(d: Disk, e: Entry) { Owned(e.keyPath) && e.keyPath.value in d }

  /** The body of the entry's key file is the one that goes to the vault. */
  predicate KeyMoves(d: Disk, e: Entry) {
    OwnedThere(d, e) ==> e.id in Scan(d).keys && Scan(d).keys[e.id] == Body(d[e.keyPath.value]) != ""
  }

  /** What the scan found for an id it found in an entry's file. */
  lemma FoundInAnEntry(d: Disk, id: string)
    requires id in Scan(d).keys
    ensures id in Scan(d).keyFiles && id != ""
    ensures exists e :: e in Listed(d) && e.id == id && OwnedThere(d, e)
              && e.keyPath == Some(Scan(d).keyFiles[id]) && Scan(d).keys[id] == Body(d[Scan(d).keyFiles[id]])
  {
    var es := Listed(d);
    ScannedKeys(d, es, id);
    var i :| 0 <= i < |es| && es[i].id == id && es[i].keyPath == Some(Scan(d).keyFiles[id]);
    assert es[i] in es;
  }

  lemma OwnedIsFound(d: Disk, e: Entry)
    requires e in Listed(d) && OwnedThere(d, e) && e.id != ""
    ensures e.id in Scan(d).keys
  {
    ScannedKeys(d, Listed(d), e.id);
    var i :| 0 <= i < |Listed(d)| && Listed(d)[i] == e;
  }

  /**
   * Every key in a file of ours goes to the vault exactly if none has an empty
   * id or an empty body and no id has two different ones.
   */
  lemma AllKeysMove(d: Disk)
    ensures (forall e | e in Listed(d) :: KeyMoves(d, e)) <==>
            && (forall e | e in Listed(d) && OwnedThere(d, e) :: e.id != "" && Body(d[e.keyPath.value]) != "")
            && (forall e, e' | e in Listed(d) && e' in Listed(d) && OwnedThere(d, e) && OwnedThere(d, e') && e.id == e'.id ::
                  Body(d[e.keyPath.value]) == Body(d[e'.keyPath.value]))
  {
    forall e | e in Listed(d) && OwnedThere(d, e) ensures KeyMoves(d, e) ==> e.id != "" {
      if e.id in Scan(d).keys {
        FoundInAnEntry(d, e.id);
      }
    }
    if (forall e | e in Listed(d) && OwnedThere(d, e) :: e.id != "" && Body(d[e.keyPath.value]) != "")
      && (forall e, e' | e in Listed(d) && e' in Listed(d) && OwnedThere(d, e) && OwnedThere(d, e') && e.id == e'.id ::
            Body(d[e.keyPath.value]) == Body(d[e'.keyPath.value]))
    {
      forall e | e in Listed(d) ensures KeyMoves(d, e) {
        if OwnedThere(d, e) {
          OwnedIsFound(d, e);
          FoundInAnEntry(d, e.id);
        }
      }
    }
  }

  /** The migration takes the entry's path away only if it is that of the key that moved. */
  predicate ClearedRightly(d: Disk, e: Entry) {
    e.id in Scan(d).keys && e.keyPath.Some? ==> e.id in Scan(d).keyFiles && e.keyPath.value == Scan(d).keyFiles[e.id]
  }

  /** No path but a moved key's is cleared exactly if no id of a key that moves is shared with another path. */
  lemma PathsClearedRightlyWhen(d: Disk)
    ensures (forall e | e in Listed(d) :: ClearedRightly(d, e)) <==>
            forall e, e' | e in Listed(d) && e' in Listed(d) && OwnedThere(d, e) && e.id == e'.id != "" && e'.keyPath.Some? ::
              e'.keyPath == e.keyPath
  {
    if forall e | e in Listed(d) :: ClearedRightly(d, e) {
      forall e, e' | e in Listed(d) && e' in Listed(d) && OwnedThere(d, e) && e.id == e'.id != "" && e'.keyPath.Some?
        ensures e'.keyPath == e.keyPath
      {
        OwnedIsFound(d, e);
        assert ClearedRightly(d, e) && ClearedRightly(d, e');
      }
    } else {
      var e' :| e' in Listed(d) && !ClearedRightly(d, e');
      FoundInAnEntry(d, e'.id);
    }
  }

  /** Two entries of one id: a key file of ours, and a file of the user's. */
  const SHARED_ID: Disk :=
    map[ServersJson := Servers([Entry("a", "", Some(KeyFile("a")), ""), Entry("a", "", Some(UserFile("u")), "")]),
        KeyFile("a") := Key("k"), UserFile("u") := Key("l")]

  lemma SharedIdScanned()
    ensures Scan(SHARED_ID).keys == map["a" := "k"]
  {
    var es := Listed(SHARED_ID);
    assert es[..1] == [es[0]] && es[..1][..0] == [];
    assert ScanEntries(SHARED_ID, []) == NOTHING;
    assert ScanEntries(SHARED_ID, es[..1]) == ScanEntry(SHARED_ID, NOTHING, es[0]);
    assert Scan(SHARED_ID) == ScanEntry(SHARED_ID, ScanEntries(SHARED_ID, es[..1]), es[1]);
  }

  /** The second entry's path is gone, and its key did not move. */
  lemma ASharedIdLosesAPath(d: Disk, secrets: Secrets, passphrase: string)
    requires Migrated(SHARED_ID, d, Scan(SHARED_ID), secrets, passphrase)
    ensures |Listed(SHARED_ID)| == |Listed(d)| == 2
    ensures Listed(SHARED_ID)[1].keyPath == Some(UserFile("u")) && Listed(d)[1].keyPath == None
    ensures LoadSecrets(d, passphrase).Some? && Lookup(LoadSecrets(d, passphrase).value.keys, "a") == "k"
  {
    SharedIdScanned();
    MigratedList(SHARED_ID, d, secrets, passphrase);
    MigratedSecrets(SHARED_ID, d, secrets, passphrase);
    FillHolds(secrets.keys, Scan(SHARED_ID).keys, "a");
  }
}
