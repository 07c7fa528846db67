/** main.go, sendFiles: every selected host is dialled over SSH. On each
    host whose SFTP client comes up, every selected entry is attempted: a
    regular file is copied; a directory only gets its remote directory
    created, and the files in it are never sent; a missing source is
    recorded as not found. Failures are gathered, never fatal: a host that
    cannot be reached goes on the list of failed hosts and gets nothing, a
    local source that cannot be read or copied gets an entry in the map of
    failed files, keyed by its source path. */
module Transfer {
  import opened Text
  import opened Lib
  import opened Model

  /** Why a source path is in the map of failed files. */
  datatype FailReason = SourceNotFound | OpenFailed | ReaddirFailed | CreateFailed | CopyFailed

  /** A call sendFiles makes, tagged with the position of the host it is
      serving: ssh.Dial, sftp.NewClient, os.Open and Readdir on the local
      side, MkdirAll, Create and io.Copy towards the remote side. */
  datatype Op =
    | Dial(host: nat)
    | NewClient(host: nat)
    | Open(host: nat, path: string)
    | Readdir(host: nat, path: string)
    | MkdirAll(host: nat, path: string)
    | Create(host: nat, path: string)
    | Copy(host: nat, src: string, dest: string)

  /** The world outside the program during one run: the local file system
      and whether each call succeeds, for the pass over the host at the
      given position. The network, the SSH and SFTP servers and the disks
      are not modelled beyond these answers. */
  datatype Env = Env(
    fs: FileSystem,
    dialOk: nat -> bool,
    clientOk: nat -> bool,
    openOk: (nat, string) -> bool,
    readdirOk: (nat, string) -> bool,
    createOk: (nat, string) -> bool,
    copyOk: (nat, string, string) -> bool)

  /** The host at position j can be served: the dial and the SFTP
      handshake both succeed. */
  predicate Connects(env: Env, j: nat) {
    env.dialOk(j) && env.clientOk(j)
  }

  /** failedHosts holds the positions of the hosts that were appended to
      the source's slice (the slice holds the hosts themselves). */
  datatype Outcome = Outcome(failedHosts: seq<nat>, failedFiles: map<string, FailReason>, ops: seq<Op>)

  /** failedFiles[key] = reason, when failed. */
  function Record(o: Outcome, failed: bool, key: string, reason: FailReason): Outcome
  {
    if failed then o.(failedFiles := o.failedFiles[key := reason]) else o
  }

  function Call(o: Outcome, op: Op): Outcome
  {
    o.(ops := o.ops + [op])
  }

  // ---------------------------------------------------------------------
  // One file entry on one host

  /** The body of the loop over config.Files for the host at position j, in
      the source's order. A directory is opened and read, then created on
      the remote side; its contents are never sent, because the loop over
      them skips every child while the entry's own source is a directory.
      A regular file is opened, created remotely and copied. A failed
      os.Open does not stop either branch: Readdir and io.Copy on the nil
      file then fail in turn. */
  function SendEntry(o: Outcome, j: nat, f: FileEntry, env: Env): Outcome
  {
    if !f.isSelected then o
    else if !PathExists(env.fs, f.src) then Record(o, true, f.src, SourceNotFound)
    else if IsDir(env.fs, f.src) then
      var srcOpen := env.openOk(j, f.src);
      var o1 := Record(Call(o, Open(j, f.src)), !srcOpen, f.src, OpenFailed);
      var o2 := Record(Call(o1, Readdir(j, f.src)), !(srcOpen && env.readdirOk(j, f.src)), f.src, ReaddirFailed);
      Call(o2, MkdirAll(j, f.dest))
    else if IsFile(env.fs, f.src) then
      var srcOpen := env.openOk(j, f.src);
      var o1 := Record(Call(o, Open(j, f.src)), !srcOpen, f.src, OpenFailed);
      var o2 := Call(o1, Create(j, f.dest));
      if !env.createOk(j, f.dest) then Record(o2, true, f.src, CreateFailed)
      else
        Record(Call(o2, Copy(j, f.src, f.dest)), !(srcOpen && env.copyOk(j, f.src, f.dest)), f.src, CopyFailed)
    else o
  }

  /** The calls one entry causes on host j, by the kind of its source. */
  function EntryOps(j: nat, f: FileEntry, env: Env): seq<Op>
  {
    if !f.isSelected || !PathExists(env.fs, f.src) then []
    else if IsDir(env.fs, f.src) then [Open(j, f.src), Readdir(j, f.src), MkdirAll(j, f.dest)]
    else [Open(j, f.src), Create(j, f.dest)] + (if env.createOk(j, f.dest) then [Copy(j, f.src, f.dest)] else [])
  }

  /** Whether the entry ends up in the map on host j. */
  predicate EntryFails(j: nat, f: FileEntry, env: Env)
  {
    f.isSelected
    && (!PathExists(env.fs, f.src)
        || (IsDir(env.fs, f.src) && !(env.openOk(j, f.src) && env.readdirOk(j, f.src)))
        || (!IsDir(env.fs, f.src)
            && !(env.createOk(j, f.dest) && env.openOk(j, f.src) && env.copyOk(j, f.src, f.dest))))
  }

  /** The reason the map holds for the entry afterwards: the last failure
      recorded. An os.Open failure is always overwritten by the failure of
      the Readdir, Create or io.Copy that follows it. */
  function EntryReason(j: nat, f: FileEntry, env: Env): FailReason
  {
    if !PathExists(env.fs, f.src) then SourceNotFound
    else if IsDir(env.fs, f.src) then ReaddirFailed
    else if !env.createOk(j, f.dest) then CreateFailed
    else CopyFailed
  }

  /** One entry on one host: the failed hosts stay as they are, the calls
      are the entry's, and the map gains the entry's source exactly when it
      fails there, with the last reason recorded. */
  lemma SendEntryEffect(o: Outcome, j: nat, f: FileEntry, env: Env)
    ensures var r := SendEntry(o, j, f, env);
            r.failedHosts == o.failedHosts
            && r.ops == o.ops + EntryOps(j, f, env)
            && r.failedFiles == if EntryFails(j, f, env) then o.failedFiles[f.src := EntryReason(j, f, env)]
                                else o.failedFiles
  {
    PathQueriesPartition(env.fs, f.src);
    if f.isSelected && PathExists(env.fs, f.src) && !IsDir(env.fs, f.src) {
      var o2 := Call(Record(Call(o, Open(j, f.src)), !env.openOk(j, f.src), f.src, OpenFailed), Create(j, f.dest));
      assert o2.ops == o.ops + [Open(j, f.src), Create(j, f.dest)];
    }
  }

  // ---------------------------------------------------------------------
  // The loops

  /** The loop over config.Files for the host at position j. */
  function AfterEntries(o: Outcome, j: nat, fs: seq<FileEntry>, env: Env): Outcome
  {
    if fs == [] then o
    else SendEntry(AfterEntries(o, j, fs[..|fs| - 1], env), j, fs[|fs| - 1], env)
  }

  /** The body of the loop over config.Hosts, for host h at position j. */
  function ServeHost(o: Outcome, j: nat, h: Host, files: seq<FileEntry>, env: Env): Outcome
  {
    if !h.isSelected then o
    else if !env.dialOk(j) then Call(o, Dial(j)).(failedHosts := o.failedHosts + [j])
    else if !env.clientOk(j) then Call(Call(o, Dial(j)), NewClient(j)).(failedHosts := o.failedHosts + [j])
    else AfterEntries(Call(Call(o, Dial(j)), NewClient(j)), j, files, env)
  }

  /** sendFiles over the hosts in order, from nothing failed. */
  function RunTransfer(hosts: seq<Host>, files: seq<FileEntry>, env: Env): Outcome
  {
    if hosts == [] then Outcome([], map[], [])
    else ServeHost(RunTransfer(hosts[..|hosts| - 1], files, env), |hosts| - 1, hosts[|hosts| - 1], files, env)
  }

  /** sendFiles: the two loops, as the source runs them. The configuration
      is only read. */
  method SendFiles(config: Config, env: Env) returns (o: Outcome)
    ensures o == RunTransfer(config.hosts[..], config.files[..], env)
  {
    var hosts := config.hosts[..];
    var files := config.files[..];
    var failedHosts: seq<nat> := [];
    var failedFiles: map<string, FailReason> := map[];
    var ops: seq<Op> := [];
    for j := 0 to config.hosts.Length
      invariant Outcome(failedHosts, failedFiles, ops) == RunTransfer(hosts[..j], files, env)
    {
      assert hosts[..j + 1][..j] == hosts[..j];
      var host := config.hosts[j];
      if !host.isSelected {
        continue;
      }
      ops := ops + [Dial(j)];
      if !env.dialOk(j) {
        failedHosts := failedHosts + [j];
        continue;
      }
      ops := ops + [NewClient(j)];
      if !env.clientOk(j) {
        failedHosts := failedHosts + [j];
        continue;
      }
      ghost var start := Outcome(failedHosts, failedFiles, ops);
      for k := 0 to config.files.Length
        invariant Outcome(failedHosts, failedFiles, ops) == AfterEntries(start, j, files[..k], env)
      {
        assert files[..k + 1][..k] == files[..k];
        var file := config.files[k];
        if !file.isSelected {
          continue;
        }
        if !PathExists(env.fs, file.src) {
          failedFiles := failedFiles[file.src := SourceNotFound];
          continue;
        }
        if IsDir(env.fs, file.src) {
          ops := ops + [Open(j, file.src)];
          var srcOpen := env.openOk(j, file.src);
          if !srcOpen {
            failedFiles := failedFiles[file.src := OpenFailed];
          }
          ops := ops + [Readdir(j, file.src)];
          if !(srcOpen && env.readdirOk(j, file.src)) {
            failedFiles := failedFiles[file.src := ReaddirFailed];
          }
          ops := ops + [MkdirAll(j, file.dest)];
        } else if IsFile(env.fs, file.src) {
          ops := ops + [Open(j, file.src)];
          var srcOpen := env.openOk(j, file.src);
          if !srcOpen {
            failedFiles := failedFiles[file.src := OpenFailed];
          }
          ops := ops + [Create(j, file.dest)];
          if !env.createOk(j, file.dest) {
            failedFiles := failedFiles[file.src := CreateFailed];
            continue;
          }
          ops := ops + [Copy(j, file.src, file.dest)];
          if !(srcOpen && env.copyOk(j, file.src, file.dest)) {
            failedFiles := failedFiles[file.src := CopyFailed];
            continue;
          }
        }
      }
      assert files[..config.files.Length] == files;
    }
    assert hosts[..config.hosts.Length] == hosts;
    o := Outcome(failedHosts, failedFiles, ops);
  }

  // ---------------------------------------------------------------------
  // The calls made

  /** The calls of the loop over config.Files on host j, entry by entry. */
  function EntriesOps(j: nat, fs: seq<FileEntry>, env: Env): seq<Op>
  {
    if fs == [] then [] else EntriesOps(j, fs[..|fs| - 1], env) + EntryOps(j, fs[|fs| - 1], env)
  }

  /** The calls of one pass of the loop over config.Hosts: a selected host
      is dialled; the SFTP client is set up only over a connection; the
      entries are sent only through a client. */
  function HostOps(j: nat, h: Host, files: seq<FileEntry>, env: Env): seq<Op>
  {
    if !h.isSelected then []
    else if !env.dialOk(j) then [Dial(j)]
    else if !env.clientOk(j) then [Dial(j), NewClient(j)]
    else [Dial(j), NewClient(j)] + EntriesOps(j, files, env)
  }

  function RunOps(hosts: seq<Host>, files: seq<FileEntry>, env: Env): seq<Op>
  {
    if hosts == [] then []
    else RunOps(hosts[..|hosts| - 1], files, env) + HostOps(|hosts| - 1, hosts[|hosts| - 1], files, env)
  }

  lemma {:induction false} AfterEntriesOps(o: Outcome, j: nat, fs: seq<FileEntry>, env: Env)
    ensures AfterEntries(o, j, fs, env).ops == o.ops + EntriesOps(j, fs, env)
    ensures AfterEntries(o, j, fs, env).failedHosts == o.failedHosts
  {
    if fs != [] {
      var front := fs[..|fs| - 1];
      AfterEntriesOps(o, j, front, env);
      SendEntryEffect(AfterEntries(o, j, front, env), j, fs[|fs| - 1], env);
    }
  }

  /** sendFiles makes the calls of each host's pass, host after host. */
  lemma {:induction false} RunTransferOps(hosts: seq<Host>, files: seq<FileEntry>, env: Env)
    ensures RunTransfer(hosts, files, env).ops == RunOps(hosts, files, env)
  {
    if hosts != [] {
      var front := hosts[..|hosts| - 1];
      var j := |hosts| - 1;
      RunTransferOps(front, files, env);
      var o := RunTransfer(front, files, env);
      if hosts[j].isSelected && Connects(env, j) {
        AfterEntriesOps(Call(Call(o, Dial(j)), NewClient(j)), j, files, env);
      }
    }
  }

  lemma {:induction false} EntriesOpsHas(j: nat, fs: seq<FileEntry>, env: Env, op: Op)
    ensures op in EntriesOps(j, fs, env) <==> exists k :: 0 <= k < |fs| && op in EntryOps(j, fs[k], env)
  {
    if fs != [] {
      var n := |fs| - 1;
      var front := fs[..n];
      EntriesOpsHas(j, front, env, op);
      assert EntriesOps(j, fs, env) == EntriesOps(j, front, env) + EntryOps(j, fs[n], env);
      if op in EntriesOps(j, fs, env) {
        if op in EntryOps(j, fs[n], env) {
          assert 0 <= n < |fs| && op in EntryOps(j, fs[n], env);
        } else {
          var k :| 0 <= k < |front| && op in EntryOps(j, front[k], env);
          assert fs[k] == front[k];
        }
      }
      if k :| 0 <= k < |fs| && op in EntryOps(j, fs[k], env) {
        if k < n {
          assert fs[k] == front[k];
        }
      }
    }
  }

  lemma {:induction false} RunOpsHas(hosts: seq<Host>, files: seq<FileEntry>, env: Env, op: Op)
    ensures op in RunOps(hosts, files, env) <==>
            exists j :: 0 <= j < |hosts| && op in HostOps(j, hosts[j], files, env)
  {
    if hosts != [] {
      var n := |hosts| - 1;
      var front := hosts[..n];
      RunOpsHas(front, files, env, op);
      assert RunOps(hosts, files, env) == RunOps(front, files, env) + HostOps(n, hosts[n], files, env);
      if op in RunOps(hosts, files, env) {
        if op in HostOps(n, hosts[n], files, env) {
          assert 0 <= n < |hosts| && op in HostOps(n, hosts[n], files, env);
        } else {
          var j :| 0 <= j < |front| && op in HostOps(j, front[j], files, env);
          assert hosts[j] == front[j];
        }
      }
      if j :| 0 <= j < |hosts| && op in HostOps(j, hosts[j], files, env) {
        if j < n {
          assert hosts[j] == front[j];
        }
      }
    }
  }

  /** Every call of an entry's pass on host j is tagged with j and is none
      of the connection calls; Create and io.Copy are made only for a
      source that is a file, MkdirAll and Readdir only for a directory. */
  lemma EntryOpsShape(j: nat, f: FileEntry, env: Env, op: Op)
    requires op in EntryOps(j, f, env)
    ensures op.host == j && !op.Dial? && !op.NewClient? && f.isSelected && PathExists(env.fs, f.src)
    ensures (op.Create? || op.Copy?) ==> IsFile(env.fs, f.src) && !IsDir(env.fs, f.src)
    ensures op.Create? ==> op.path == f.dest
    ensures op.Copy? ==> op.src == f.src && op.dest == f.dest && env.createOk(j, f.dest)
    ensures (op.MkdirAll? || op.Readdir?) ==> IsDir(env.fs, f.src)
    ensures op.MkdirAll? ==> op.path == f.dest
    ensures (op.Open? || op.Readdir?) ==> op.path == f.src
  {
    PathQueriesPartition(env.fs, f.src);
  }

  /** What each call of a run is for: it serves a selected host; any call
      after the dial went through a connection; any call after the SFTP
      handshake went through a client and belongs to a selected entry. */
  lemma CallsOfRun(hosts: seq<Host>, files: seq<FileEntry>, env: Env, op: Op)
    requires op in RunTransfer(hosts, files, env).ops
    ensures op.host < |hosts| && hosts[op.host].isSelected
    ensures !op.Dial? ==> env.dialOk(op.host)
    ensures !op.Dial? && !op.NewClient? ==>
              Connects(env, op.host)
              && exists k :: 0 <= k < |files| && op in EntryOps(op.host, files[k], env)
  {
    RunTransferOps(hosts, files, env);
    RunOpsHas(hosts, files, env, op);
    var j :| 0 <= j < |hosts| && op in HostOps(j, hosts[j], files, env);
    HostOpsShape(j, hosts[j], files, env, op);
    EntriesOpsHas(j, files, env, op);
  }

  lemma HostOpsShape(j: nat, h: Host, files: seq<FileEntry>, env: Env, op: Op)
    requires op in HostOps(j, h, files, env)
    ensures h.isSelected && (!op.Dial? ==> env.dialOk(j))
    ensures !op.Dial? && !op.NewClient? ==> Connects(env, j) && op in EntriesOps(j, files, env)
    ensures op.host == j
  {
    if h.isSelected && Connects(env, j) && op in EntriesOps(j, files, env) {
      EntriesOpsHas(j, files, env, op);
      var k :| 0 <= k < |files| && op in EntryOps(j, files[k], env);
      EntryOpsShape(j, files[k], env, op);
    }
  }

  /** Conversely, every selected host is dialled, and on every host that
      connects each selected entry gets all the calls of its pass. */
  lemma CallsMade(hosts: seq<Host>, files: seq<FileEntry>, env: Env, j: nat, op: Op)
    requires j < |hosts| && hosts[j].isSelected
    requires op == Dial(j) || (env.dialOk(j) && op == NewClient(j))
             || (Connects(env, j) && exists k :: 0 <= k < |files| && op in EntryOps(j, files[k], env))
    ensures op in RunTransfer(hosts, files, env).ops
  {
    RunTransferOps(hosts, files, env);
    if op != Dial(j) && op != NewClient(j) {
      EntriesOpsHas(j, files, env, op);
    }
    RunOpsHas(hosts, files, env, op);
  }

  /** A run dials exactly the selected hosts. */
  lemma DialsSelected(hosts: seq<Host>, files: seq<FileEntry>, env: Env, j: nat)
    ensures Dial(j) in RunTransfer(hosts, files, env).ops <==> j < |hosts| && hosts[j].isSelected
  {
    if Dial(j) in RunTransfer(hosts, files, env).ops {
      CallsOfRun(hosts, files, env, Dial(j));
    }
    if j < |hosts| && hosts[j].isSelected {
      CallsMade(hosts, files, env, j, Dial(j));
    }
  }

  /** The contents of a directory are never sent: every Create and io.Copy
      is for an entry whose source is a file, to that entry's destination. */
  lemma OnlyFilesAreCopied(hosts: seq<Host>, files: seq<FileEntry>, env: Env, op: Op)
    requires op in RunTransfer(hosts, files, env).ops && (op.Create? || op.Copy?)
    ensures exists k :: 0 <= k < |files| && files[k].isSelected && IsFile(env.fs, files[k].src)
                        && (if op.Create? then op.path else op.dest) == files[k].dest
  {
    CallsOfRun(hosts, files, env, op);
    var k :| 0 <= k < |files| && op in EntryOps(op.host, files[k], env);
    EntryOpsShape(op.host, files[k], env, op);
  }

  // ---------------------------------------------------------------------
  // What failed

  /** The failed hosts: exactly the selected hosts that cannot be served,
      each once and in configuration order. */
  lemma {:induction false} FailedHostsExact(hosts: seq<Host>, files: seq<FileEntry>, env: Env)
    ensures var fh := RunTransfer(hosts, files, env).failedHosts;
            (forall j: nat :: j in fh <==> j < |hosts| && hosts[j].isSelected && !Connects(env, j))
            && (forall a, b :: 0 <= a < b < |fh| ==> fh[a] < fh[b])
            && |fh| <= |hosts|
  {
    if hosts != [] {
      var front := hosts[..|hosts| - 1];
      var n := |hosts| - 1;
      FailedHostsExact(front, files, env);
      var o := RunTransfer(front, files, env);
      if hosts[n].isSelected && Connects(env, n) {
        AfterEntriesOps(Call(Call(o, Dial(n)), NewClient(n)), n, files, env);
      }
      forall j | 0 <= j < n
        ensures hosts[j] == front[j]
      {
      }
      forall a | 0 <= a < |o.failedHosts|
        ensures o.failedHosts[a] < n
      {
        assert o.failedHosts[a] in o.failedHosts;
      }
    }
  }

  /** The entry at some position of fs has source src and fails on host j. */
  ghost predicate SourceFailsOn(fs: seq<FileEntry>, env: Env, j: nat, src: string)
  {
    exists k :: 0 <= k < |fs| && fs[k].src == src && EntryFails(j, fs[k], env)
  }

  /** The reason recorded for a source agrees with what the source is: a
      missing path was not found, a directory failed at Readdir, and a file
      failed at Create or at io.Copy. */
  predicate ReasonFits(r: FailReason, fs: FileSystem, src: string)
  {
    match KindOf(fs, src)
    case Missing => r == SourceNotFound
    case Directory => r == ReaddirFailed
    case _ => r == CreateFailed || r == CopyFailed
  }

  ghost predicate ReasonsFit(failed: map<string, FailReason>, fs: FileSystem)
  {
    forall src :: src in failed ==> ReasonFits(failed[src], fs, src)
  }

  lemma {:induction false} AfterEntriesFailures(o: Outcome, j: nat, fs: seq<FileEntry>, env: Env, src: string)
    ensures src in AfterEntries(o, j, fs, env).failedFiles <==> src in o.failedFiles || SourceFailsOn(fs, env, j, src)
    ensures ReasonsFit(o.failedFiles, env.fs) ==> ReasonsFit(AfterEntries(o, j, fs, env).failedFiles, env.fs)
  {
    if fs != [] {
      var front := fs[..|fs| - 1];
      var last := fs[|fs| - 1];
      AfterEntriesFailures(o, j, front, env, src);
      SendEntryEffect(AfterEntries(o, j, front, env), j, last, env);
      if SourceFailsOn(front, env, j, src) {
        var k :| 0 <= k < |front| && front[k].src == src && EntryFails(j, front[k], env);
        assert fs[k] == front[k];
      }
      if SourceFailsOn(fs, env, j, src) && !(last.src == src && EntryFails(j, last, env)) {
        var k :| 0 <= k < |fs| && fs[k].src == src && EntryFails(j, fs[k], env);
        assert k < |front| && front[k] == fs[k];
      }
      PathQueriesPartition(env.fs, last.src);
    }
  }

  /** The map of failed files: a source is a key exactly when some selected
      host that can be served failed on some entry with that source. */
  lemma {:induction false} FailedFilesExact(hosts: seq<Host>, files: seq<FileEntry>, env: Env, src: string)
    ensures src in RunTransfer(hosts, files, env).failedFiles <==>
            exists j :: 0 <= j < |hosts| && hosts[j].isSelected && Connects(env, j) && SourceFailsOn(files, env, j, src)
    ensures ReasonsFit(RunTransfer(hosts, files, env).failedFiles, env.fs)
  {
    if hosts != [] {
      var front := hosts[..|hosts| - 1];
      var n := |hosts| - 1;
      FailedFilesExact(front, files, env, src);
      var o := RunTransfer(front, files, env);
      if hosts[n].isSelected && Connects(env, n) {
        AfterEntriesFailures(Call(Call(o, Dial(n)), NewClient(n)), n, files, env, src);
      }
      forall j | 0 <= j < n
        ensures hosts[j] == front[j]
      {
      }
    }
  }

  /** The source paths of the entries. */
  function Sources(fs: seq<FileEntry>): (r: set<string>)
    ensures |r| <= |fs|
  {
    if fs == [] then {} else Sources(fs[..|fs| - 1]) + {fs[|fs| - 1].src}
  }

  lemma {:induction false} SourcesHas(fs: seq<FileEntry>, k: nat)
    requires k < |fs|
    ensures fs[k].src in Sources(fs)
  {
    if k < |fs| - 1 {
      SourcesHas(fs[..|fs| - 1], k);
      assert fs[..|fs| - 1][k] == fs[k];
    }
  }

  /** The counts printed at the end are bounded by the configuration: at
      most one failed host per configured host, and at most one key per
      configured entry, however many hosts the entries failed on. */
  lemma FailureCounts(hosts: seq<Host>, files: seq<FileEntry>, env: Env)
    ensures |RunTransfer(hosts, files, env).failedHosts| <= |hosts|
    ensures |RunTransfer(hosts, files, env).failedFiles| <= |files|
  {
    FailedHostsExact(hosts, files, env);
    var ff := RunTransfer(hosts, files, env).failedFiles;
    forall src | src in ff
      ensures src in Sources(files)
    {
      FailedFilesExact(hosts, files, env, src);
      var j :| 0 <= j < |hosts| && hosts[j].isSelected && Connects(env, j) && SourceFailsOn(files, env, j, src);
      var k :| 0 <= k < |files| && files[k].src == src && EntryFails(j, files[k], env);
      SourcesHas(files, k);
    }
    SubsetSize(ff.Keys, Sources(files));
  }

  lemma {:induction false} SubsetSize<T>(a: set<T>, b: set<T>)
    requires a <= b
    ensures |a| <= |b|
    decreases b
  {
    if a != {} {
      var x :| x in a;
      SubsetSize(a - {x}, b - {x});
    }
  }

  /** With no host selected nothing is attempted and nothing fails. */
  lemma {:induction false} NoHostSelected(hosts: seq<Host>, files: seq<FileEntry>, env: Env)
    requires forall j :: 0 <= j < |hosts| ==> !hosts[j].isSelected
    ensures RunTransfer(hosts, files, env) == Outcome([], map[], [])
  {
    if hosts != [] {
      NoHostSelected(hosts[..|hosts| - 1], files, env);
    }
  }

  /** With no entry selected the hosts are only connected to: no file
      fails and no file call is made. */
  lemma NoFileSelected(hosts: seq<Host>, files: seq<FileEntry>, env: Env)
    requires forall k :: 0 <= k < |files| ==> !files[k].isSelected
    ensures RunTransfer(hosts, files, env).failedFiles == map[]
    ensures forall op :: op in RunTransfer(hosts, files, env).ops ==> op.Dial? || op.NewClient?
  {
    var o := RunTransfer(hosts, files, env);
    forall src | src in o.failedFiles
      ensures false
    {
      FailedFilesExact(hosts, files, env, src);
    }
    forall op | op in o.ops
      ensures op.Dial? || op.NewClient?
    {
      CallsOfRun(hosts, files, env, op);
    }
  }

  /** With only the first host and the first entry selected, every call
      serves the first host, and only the first entry's calls are made
      after the handshake. The first host is the only one that can fail,
      and the first entry's source the only key of the map. */
  lemma OnlyFirstSelected(hosts: seq<Host>, files: seq<FileEntry>, env: Env)
    requires forall j :: 0 < j < |hosts| ==> !hosts[j].isSelected
    requires forall k :: 0 < k < |files| ==> !files[k].isSelected
    ensures var o := RunTransfer(hosts, files, env);
            forall op :: op in o.ops ==>
              op.host == 0 && (op.Dial? || op.NewClient? || (files != [] && op in EntryOps(0, files[0], env)))
    ensures var o := RunTransfer(hosts, files, env);
            forall j: nat :: j in o.failedHosts <==> j == 0 && hosts != [] && hosts[0].isSelected && !Connects(env, 0)
    ensures var o := RunTransfer(hosts, files, env);
            forall src :: src in o.failedFiles <==>
              hosts != [] && hosts[0].isSelected && Connects(env, 0)
              && files != [] && src == files[0].src && EntryFails(0, files[0], env)
  {
    var o := RunTransfer(hosts, files, env);
    forall op | op in o.ops
      ensures op.host == 0 && (op.Dial? || op.NewClient? || (files != [] && op in EntryOps(0, files[0], env)))
    {
      CallsOfRun(hosts, files, env, op);
      if !op.Dial? && !op.NewClient? {
        var k :| 0 <= k < |files| && op in EntryOps(op.host, files[k], env);
        EntryOpsShape(op.host, files[k], env, op);
      }
    }
    FailedHostsExact(hosts, files, env);
    forall src
      ensures src in o.failedFiles <==>
              hosts != [] && hosts[0].isSelected && Connects(env, 0)
              && files != [] && src == files[0].src && EntryFails(0, files[0], env)
    {
      FailedFilesExact(hosts, files, env, src);
      if src in o.failedFiles {
        var j :| 0 <= j < |hosts| && hosts[j].isSelected && Connects(env, j) && SourceFailsOn(files, env, j, src);
        var k :| 0 <= k < |files| && files[k].src == src && EntryFails(j, files[k], env);
        assert j == 0 && k == 0;
      }
    }
  }

  /** A missing source is reported as not found once any selected host can
      be served. */
  lemma MissingSourceReported(hosts: seq<Host>, files: seq<FileEntry>, env: Env, j: nat, k: nat)
    requires j < |hosts| && hosts[j].isSelected && Connects(env, j)
    requires k < |files| && files[k].isSelected && !PathExists(env.fs, files[k].src)
    ensures var ff := RunTransfer(hosts, files, env).failedFiles;
            files[k].src in ff && ff[files[k].src] == SourceNotFound
  {
    assert EntryFails(j, files[k], env);
    FailedFilesExact(hosts, files, env, files[k].src);
  }

  /** A source file that cannot be opened is still created on the remote
      side (as an empty file), and the entry is reported as failed at
      Create or at io.Copy, never at os.Open. */
  lemma CreateEvenWhenOpenFails(hosts: seq<Host>, files: seq<FileEntry>, env: Env, j: nat, k: nat)
    requires j < |hosts| && hosts[j].isSelected && Connects(env, j)
    requires k < |files| && files[k].isSelected && IsFile(env.fs, files[k].src)
    requires !env.openOk(j, files[k].src)
    ensures Create(j, files[k].dest) in RunTransfer(hosts, files, env).ops
    ensures var ff := RunTransfer(hosts, files, env).failedFiles;
            files[k].src in ff && ff[files[k].src] in {CreateFailed, CopyFailed}
  {
    PathQueriesPartition(env.fs, files[k].src);
    assert Create(j, files[k].dest) in EntryOps(j, files[k], env);
    CallsMade(hosts, files, env, j, Create(j, files[k].dest));
    assert EntryFails(j, files[k], env);
    FailedFilesExact(hosts, files, env, files[k].src);
  }

  // ---------------------------------------------------------------------
  // The report

  /** The two lines sendFiles prints when it is done. */
  function Summary(o: Outcome): string
  {
    "Failed Hosts: " + NatToString(|o.failedHosts|) + "\n"
    + "Failed Files: " + NatToString(|o.failedFiles|) + "\n"
  }

  /** The report holds the two counts, each on its own line and readable
      back as a number. */
  lemma SummaryReadsBack(o: Outcome)
    requires |o.failedHosts| <= MaxInt64 && |o.failedFiles| <= MaxInt64
    ensures var r := Summary(o);
            var h := NatToString(|o.failedHosts|);
            var rest := r[15 + |h|..];
            |r| > 15 + |h| && r[..14] == "Failed Hosts: " && r[14 + |h|] == '\n'
            && ParseInt(r[14..14 + |h|]) == Some(|o.failedHosts|)
            && |rest| > 15 && rest[..14] == "Failed Files: " && rest[|rest| - 1] == '\n'
            && ParseInt(rest[14..|rest| - 1]) == Some(|o.failedFiles|)
  {
    var h := NatToString(|o.failedHosts|);
    var f := NatToString(|o.failedFiles|);
    var r := Summary(o);
    assert r == "Failed Hosts: " + h + "\n" + ("Failed Files: " + f + "\n");
    assert r[14..14 + |h|] == h;
    assert r[15 + |h|..] == "Failed Files: " + f + "\n";
    assert ("Failed Files: " + f + "\n")[14..14 + |f|] == f;
    ParseIntOfNatToString(|o.failedHosts|);
    ParseIntOfNatToString(|o.failedFiles|);
  }

  /** One selected host that can be served and one selected entry whose
      source is missing: the host is connected to, nothing is sent, and
      the report counts no failed host and one failed file. */
  lemma MissingSourceScenario(h: Host, f: FileEntry, env: Env)
    requires h.isSelected && f.isSelected && Connects(env, 0) && !PathExists(env.fs, f.src)
    ensures RunTransfer([h], [f], env) == Outcome([], map[f.src := SourceNotFound], [Dial(0), NewClient(0)])
    ensures Summary(RunTransfer([h], [f], env)) == "Failed Hosts: 0\nFailed Files: 1\n"
  {
    assert [h][..0] == [] && [f][..0] == [];
    var start := Call(Call(Outcome([], map[], []), Dial(0)), NewClient(0));
    assert start.ops == [Dial(0), NewClient(0)];
    assert RunTransfer([h], [f], env) == AfterEntries(start, 0, [f], env);
    assert AfterEntries(start, 0, [f], env) == SendEntry(start, 0, f, env);
  }
}
