/**
 * The configuration directory as internal/config sees it: whole files that are
 * written beside their place and renamed into it, and the secrets they hold.
 */
module Vault {
  import opened Options

  datatype File =
    | ServersJson | ServersTmp
    | VaultAge | VaultTmp
    | Backup | Warn
    | KeyFile(name: string) // under keys/, ours
    | UserFile(name: string) // anywhere else, the user's

  /** An entry of servers.json; an absent password is "". */
  datatype Entry = Entry(id: string, password: string, keyPath: Option<File>, rest: string)

  /** `rest` stands for the fields no migration touches. */
  datatype Secrets = Secrets(passwords: map<string, string>, keys: map<string, string>, rest: string)

  const NO_SECRETS := Secrets(map[], map[], "")

  /** Torn is what a write that did not finish may leave. */
  datatype Content =
    | Servers(entries: seq<Entry>)
    | Sealed(secrets: Secrets, passphrase: string)
    | Key(body: string)
    | Marker
    | Torn

  type Disk = map<File, Content>

  /** The file is one SaveKey wrote: OwnsKey. */
  predicate Owned(path: Option<File>) { path.Some? && path.value.KeyFile? }

  function Body(c: Content): string { if c.Key? then c.body else "" }

  // ---------------------------------------------------------------- secrets

  /** SetPassword and SetKey: an empty value clears. */
  function Set(m: map<string, string>, id: string, value: string): map<string, string> {
    if value == "" then m - {id} else m[id := value]
  }

  /** Every pair of add, set in any order. */
  function Fill(m: map<string, string>, add: map<string, string>): map<string, string> {
    map id | id in m.Keys + add.Keys && (id in add ==> add[id] != "") :: if id in add then add[id] else m[id]
  }

  lemma FillOneMore(m: map<string, string>, add: map<string, string>, id: string, value: string)
    requires id !in add
    ensures Fill(m, add[id := value]) == Set(Fill(m, add), id, value)
  {
  }

  lemma FillTwice(m: map<string, string>, add: map<string, string>)
    ensures Fill(Fill(m, add), add) == Fill(m, add)
  {
  }

  lemma FillNothing(m: map<string, string>)
    ensures Fill(m, map[]) == m
  {
  }

  /** What a Go map answers for a key: its value, or "". */
  function Lookup(m: map<string, string>, id: string): string { if id in m then m[id] else "" }

  lemma FillHolds(m: map<string, string>, add: map<string, string>, id: string)
    ensures Lookup(Fill(m, add), id) == if id in add then add[id] else Lookup(m, id)
  {
  }

  /** LoadSecrets: no vault is no secrets; a vault opens under its own passphrase only. */
  function LoadSecrets(d: Disk, passphrase: string): Option<Secrets> {
    if VaultAge !in d then Some(NO_SECRETS)
    else match d[VaultAge]
      case Sealed(secrets, p) => if p == passphrase then Some(secrets) else None
      case _ => None
  }

  // ---------------------------------------------------------------- files

  datatype Fault = Ok | Failed | BadPassphrase | Malformed

  /**
   * The directory on disk. `history` is every state it has been through, the
   * present one last: the states a crash can leave behind.
   */
  class Directory {
    var files: Disk
    ghost var history: seq<Disk>

    ghost predicate Valid()
      reads this
    {
      history != [] && history[|history| - 1] == files
    }

    constructor (files: Disk)
      ensures Valid() && this.files == files && history == [files]
    {
      this.files, history := files, [files];
    }

    /** os.WriteFile: truncates, then fills; it can fail or die at either point. */
    method WriteFile(f: File, c: Content) returns (fault: Fault)
      requires Valid()
      modifies this
      ensures Valid() && fault in {Ok, Failed}
      ensures fault == Ok ==> files == old(files)[f := c] && history == old(history) + [old(files)[f := Torn], files]
      ensures fault == Failed ==>
                || (files == old(files) && history == old(history))
                || (files == old(files)[f := Torn] && history == old(history) + [files])
    {
      if * {
        return Failed;
      }
      files := files[f := Torn];
      history := history + [files];
      if * {
        return Failed;
      }
      files := files[f := c];
      history := history + [files];
      assert old(files)[f := Torn][f := c] == old(files)[f := c];
      return Ok;
    }

    /** os.Chmod: changes no content. */
    method Chmod(f: File) returns (fault: Fault)
      ensures fault in {Ok, Failed}
    {
      fault := Ok;
      if * {
        fault := Failed;
      }
    }

    /** os.Rename: in one step, or not at all. */
    method Rename(from: File, to: File) returns (fault: Fault)
      requires Valid() && from in files && from != to
      modifies this
      ensures Valid() && fault in {Ok, Failed}
      ensures fault == Ok ==> files == (old(files) - {from})[to := old(files)[from]] && history == old(history) + [files]
      ensures fault == Failed ==> files == old(files) && history == old(history)
    {
      if * {
        return Failed;
      }
      files := (files - {from})[to := files[from]];
      history := history + [files];
      return Ok;
    }

    /** os.Remove, a missing file being none to worry about. */
    method Remove(f: File) returns (fault: Fault)
      requires Valid()
      modifies this
      ensures Valid() && fault in {Ok, Failed}
      ensures fault == Ok ==> files == old(files) - {f} && history == old(history) + [files]
      ensures fault == Failed ==> files == old(files) && history == old(history)
    {
      if * {
        return Failed;
      }
      files := files - {f};
      history := history + [files];
      return Ok;
    }
  }
}
