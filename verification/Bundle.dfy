/** Taking in a pulled bundle (internal/config/bundle.go). */
module Bundle {
  import opened Options
  import opened HostLines
  import opened KnownHosts
  import opened KnownHostsSafety

  const BUNDLE_VERSION := 1
  const SECRETS_VERSION := 1

  datatype Secrets = Secrets(version: int, content: string)

  datatype Bundle = Bundle(version: int, servers: string, secrets: Secrets, knownHosts: string)

  datatype ApplyReport = ApplyReport(backup: bool, kept: nat, added: nat, conflicts: seq<string>)

  datatype Fault = Ok | UnknownVersion | Failed

  /** A file that is missing reads as nothing. */
  function TextOf(file: Option<string>): string { if file.Some? then file.value else "" }

  method KnownHostLines(text: string) returns (lines: seq<HostLine>)
    ensures lines == Lines(text)
  {
    var pieces := Split(text, Newline);
    lines := [];
    var i := 0;
    while i < |pieces|
      invariant 0 <= i <= |pieces| && lines == ParseAll(pieces[..i])
    {
      assert pieces[..i + 1][..i] == pieces[..i];
      var l := ParseLine(pieces[i]);
      i := i + 1;
      if l.None? {
        continue;
      }
      lines := lines + [l.value];
    }
    assert pieces[..i] == pieces;
  }

  method Keys(l: HostLine) returns (ids: seq<string>)
    ensures ids == Ids(l)
  {
    var patterns := Split(l.hosts, Comma);
    ids := [];
    var i := 0;
    while i < |patterns|
      invariant 0 <= i <= |patterns| && ids == IdsOf(patterns[..i], l.keyType)
    {
      assert patterns[..i + 1][..i] == patterns[..i];
      var p := TrimSpace(patterns[i]);
      if p != "" {
        ids := ids + [Id(p, l.keyType)];
      }
      i := i + 1;
    }
    assert patterns[..i] == patterns;
  }

  /** have, with every id of the line now at its key. */
  method LearnLine(have0: Trusted, l: HostLine) returns (have: Trusted)
    ensures have == Learn(have0, l)
  {
    var ids := Keys(l);
    have := have0;
    var i := 0;
    while i < |ids|
      invariant 0 <= i <= |ids|
      invariant have == LearnIds(have0, ids[..i], l.key)
    {
      assert ids[..i + 1] == ids[..i] + [ids[i]];
      LearnOneMore(have0, ids[..i], ids[i], l.key);
      have := have[ids[i] := l.key];
      i := i + 1;
    }
    assert ids[..i] == ids;
  }

  /** Everything trusted here, before anything comes in. */
  method Index(lines: seq<HostLine>) returns (have: Trusted, seen: set<string>)
    ensures have == Trust(lines) && seen == RawSet(lines)
  {
    have, seen := map[], {};
    var i := 0;
    while i < |lines|
      invariant 0 <= i <= |lines| && have == Trust(lines[..i]) && seen == RawSet(lines[..i])
    {
      assert lines[..i + 1][..i] == lines[..i];
      assert forall l :: l in lines[..i + 1] <==> l in lines[..i] || l == lines[i];
      seen := seen + {lines[i].raw};
      have := LearnLine(have, lines[i]);
      i := i + 1;
    }
    assert lines[..i] == lines;
  }

  method MergeKnownHosts(local: string, incoming: string)
    returns (merged: string, kept: nat, added: nat, conflicts: seq<string>)
    ensures var m := Merged(Lines(local), Lines(incoming));
            && merged == Text(m.out) && conflicts == m.conflicts
            && kept == |Lines(local)| && |m.out| == kept + added
  {
    var localLines := KnownHostLines(local);
    var have, seen := Index(localLines);
    kept := |localLines|;
    var out := localLines;
    var lines := KnownHostLines(incoming);
    var i := 0;
    added, conflicts := 0, [];
    while i < |lines|
      invariant 0 <= i <= |lines| && |out| == kept + added
      invariant Merge(have, seen, out, conflicts) == Merged(localLines, lines[..i])
    {
      MergedNext(localLines, lines, i + 1);
      have, seen, out, conflicts := Take(have, seen, out, conflicts, lines[i]);
      added := |out| - kept;
      i := i + 1;
    }
    assert lines[..i] == lines;
    merged := Text(out);
  }

  /** One incoming line: already here, turned away, or added. */
  method Take(have0: Trusted, seen0: set<string>, out0: seq<HostLine>, conflicts0: seq<string>, l: HostLine)
    returns (have: Trusted, seen: set<string>, out: seq<HostLine>, conflicts: seq<string>)
    ensures Merge(have, seen, out, conflicts) == Step(Merge(have0, seen0, out0, conflicts0), l)
    ensures |out0| <= |out|
  {
    have, seen, out, conflicts := have0, seen0, out0, conflicts0;
    if l.raw in seen {
      return;
    }
    var conflicting;
    conflicting, conflicts := Conflicting(have, l, conflicts);
    if conflicting {
      return;
    }
    seen := seen + {l.raw};
    have := LearnLine(have, l);
    out := out + [l];
  }

  /** The inner loop of the merge: hosts in conflict are listed once. */
  method Conflicting(have: Trusted, l: HostLine, conflicts0: seq<string>) returns (conflicting: bool, conflicts: seq<string>)
    ensures conflicting == Disagrees(have, l)
    ensures conflicts == if conflicting then KnownHosts.Report(conflicts0, l.hosts) else conflicts0
  {
    var ids := Keys(l);
    conflicting, conflicts := false, conflicts0;
    var i := 0;
    while i < |ids|
      invariant 0 <= i <= |ids|
      invariant conflicting <==> exists k | k in ids[..i] :: k in have && have[k] != l.key
      invariant conflicts == if conflicting then KnownHosts.Report(conflicts0, l.hosts) else conflicts0
    {
      assert ids[..i + 1] == ids[..i] + [ids[i]];
      if ids[i] in have && have[ids[i]] != l.key {
        conflicting := true;
        if l.hosts !in conflicts {
          conflicts := conflicts + [l.hosts];
        }
      }
      i := i + 1;
    }
    assert ids[..i] == ids;
  }

  /** The files on disk a pull touches. */
  datatype OnDisk = OnDisk(servers: Option<string>, backup: Option<string>, knownHosts: Option<string>)

  /** The backup is as it was, or holds a first part of the list: all of it, or what was written so far. */
  predicate BackupSoFar(before: OnDisk, now: OnDisk) {
    now.backup == before.backup || (before.servers.Some? && now.backup.Some? && now.backup.value <= before.servers.value)
  }

  /** A state a pull of bun goes through: the list is the old one, or the new one with all of the old one backed up. */
  predicate OnTheWay(before: OnDisk, now: OnDisk, bun: Bundle) {
    && BackupSoFar(before, now)
    && (now.servers == before.servers ||
        (now.servers == Some(bun.servers) && (before.servers.Some? ==> now.backup == before.servers)))
    && (now.knownHosts == before.knownHosts ||
        Lines(TextOf(now.knownHosts)) == Merged(Lines(TextOf(before.knownHosts)), Lines(bun.knownHosts)).out)
  }

  class Store {
    var servers: Option<string>
    var backup: Option<string>
    var knownHosts: Option<string>
    /** Every state the files have been in, the present one last: what a crash can leave. */
    ghost var states: seq<OnDisk>

    ghost function View(): OnDisk
      reads this
    {
      OnDisk(servers, backup, knownHosts)
    }

    ghost predicate Valid()
      reads this
    {
      states != [] && states[|states| - 1] == View()
    }

    constructor (servers: Option<string>, knownHosts: Option<string>)
      ensures Valid() && this.servers == servers && this.knownHosts == knownHosts && backup == None
    {
      this.servers, this.knownHosts, backup := servers, knownHosts, None;
      states := [OnDisk(servers, None, knownHosts)];
    }

    /**
     * Replaces the list and hands over the secrets; known_hosts is united, and
     * rewritten only when something is added. Any of the writes may fail.
     */
    method ApplyBundle(bun: Bundle) returns (report: ApplyReport, secrets: Option<Secrets>, fault: Fault)
      requires Valid()
      modifies this
      ensures Valid() && old(states) <= states
      ensures forall k | |old(states)| <= k < |states| :: OnTheWay(old(View()), states[k], bun)
      ensures fault == UnknownVersion <==> bun.version > BUNDLE_VERSION
      ensures fault == UnknownVersion ==> states == old(states) && secrets == None
      ensures fault == Ok ==>
                var m := Merged(Lines(TextOf(old(knownHosts))), Lines(bun.knownHosts));
                && servers == Some(bun.servers)
                && (old(servers).Some? ==> backup == old(servers))
                && secrets == Some(if bun.secrets.version == 0 then bun.secrets.(version := SECRETS_VERSION) else bun.secrets)
                && Lines(TextOf(knownHosts)) == m.out
                && (m.out == Lines(TextOf(old(knownHosts))) ==> knownHosts == old(knownHosts))
                && report.kept + report.added == |m.out| && report.kept == |Lines(TextOf(old(knownHosts)))|
                && report.conflicts == m.conflicts && report.backup == old(servers).Some?
      ensures fault != Ok ==> knownHosts == old(knownHosts)
    {
      report, secrets, fault := ApplyReport(false, 0, 0, []), None, Ok;
      if bun.version > BUNDLE_VERSION {
        return report, secrets, UnknownVersion;
      }
      if servers.Some? {
        fault := BackUp();
        if fault != Ok {
          return report, secrets, fault;
        }
        report := report.(backup := true);
      }
      if * {
        return report, secrets, Failed;
      }
      servers := Some(bun.servers);
      states := states + [View()];
      secrets := Some(if bun.secrets.version == 0 then bun.secrets.(version := SECRETS_VERSION) else bun.secrets);
      if * {
        return report, secrets, Failed;
      }
      var kept, added, conflicts;
      kept, added, conflicts, fault := UniteKnownHosts(bun.knownHosts);
      report := report.(kept := kept, added := added, conflicts := conflicts);
    }

    /** os.WriteFile writes the copy in place: a failure or a crash may leave a part of it. */
    method BackUp() returns (fault: Fault)
      requires Valid() && servers.Some?
      modifies this`backup, this`states
      ensures Valid() && old(states) <= states && fault in {Ok, Failed}
      ensures forall k | |old(states)| <= k < |states| ::
                states[k] == old(View()).(backup := states[k].backup) && BackupSoFar(old(View()), states[k])
      ensures fault == Ok ==> backup == servers
    {
      fault := Ok;
      if * {
        return Failed;
      }
      var n :| 0 <= n <= |servers.value|;
      backup := Some(servers.value[..n]);
      states := states + [View()];
      if * {
        return Failed;
      }
      backup := servers;
      states := states + [View()];
    }

    /** The union, written only when something is added. */
    method UniteKnownHosts(incoming: string) returns (kept: nat, added: nat, conflicts: seq<string>, fault: Fault)
      requires Valid()
      modifies this`knownHosts, this`states
      ensures Valid() && fault in {Ok, Failed} && servers == old(servers) && backup == old(backup)
      ensures var m := Merged(Lines(TextOf(old(knownHosts))), Lines(incoming));
              && conflicts == m.conflicts && kept == |Lines(TextOf(old(knownHosts)))| && kept + added == |m.out|
              && (fault == Ok ==> Lines(TextOf(knownHosts)) == m.out)
              && (m.out == Lines(TextOf(old(knownHosts))) ==> knownHosts == old(knownHosts))
      ensures fault != Ok ==> knownHosts == old(knownHosts)
      ensures states == old(states) || states == old(states) + [View()]
    {
      fault := Ok;
      var merged;
      merged, kept, added, conflicts := MergeKnownHosts(TextOf(knownHosts), incoming);
      MergedReadsBack(TextOf(knownHosts), incoming);
      if added > 0 {
        if * {
          return kept, added, conflicts, Failed;
        }
        knownHosts := Some(merged);
        states := states + [View()];
      }
    }
  }
}
