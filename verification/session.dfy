/** main.go, main: after the configuration is loaded, the menu runs until
    the file stage moves on or the input ends, then sendFiles attempts the
    selected entries on the selected hosts that connect. A quit word ends
    the program before anything is attempted. */
module Session {
  import opened Text
  import opened Model
  import opened Selection
  import opened Transfer

  /** A run from the loaded lists: None when the program exits from the
      menu, otherwise what sendFiles does with the lists as the menu left
      them. */
  function Program(hs: seq<Host>, fs: seq<FileEntry>, lines: seq<string>, env: Env): Option<Outcome>
  {
    var m := Menu(hs, fs, lines, 0, HostStage, FileStage);
    if m.end == Exit then None else Some(RunTransfer(m.hosts, m.files, env))
  }

  /** main after Config.init: the menu loop on config's lists, then
      sendFiles unless the menu exited. */
  method Run(config: Config, lines: seq<string>, env: Env) returns (sent: Option<Outcome>)
    modifies config.hosts, config.files
    ensures var m := Menu(old(config.hosts[..]), old(config.files[..]), lines, 0, HostStage, FileStage);
            config.hosts[..] == m.hosts && config.files[..] == m.files
    ensures sent == Program(old(config.hosts[..]), old(config.files[..]), lines, env)
  {
    var end, next := ChooseSelection(config, lines);
    if end == Exit {
      return None;
    }
    var o := SendFiles(config, env);
    return Some(o);
  }

  /** Only the hosts selected when the menu ends are dialled, and all of
      them are. */
  lemma DialsChosenHosts(hs: seq<Host>, fs: seq<FileEntry>, lines: seq<string>, env: Env, j: nat)
    requires Program(hs, fs, lines, env).Some?
    ensures var m := Menu(hs, fs, lines, 0, HostStage, FileStage);
            Dial(j) in Program(hs, fs, lines, env).value.ops <==> j < |hs| && m.hosts[j].isSelected
  {
    var m := Menu(hs, fs, lines, 0, HostStage, FileStage);
    DialsSelected(m.hosts, m.files, env, j);
  }

  /** A quit word as the first line: nothing is sent. */
  lemma QuitSendsNothing(hs: seq<Host>, fs: seq<FileEntry>, lines: seq<string>, env: Env)
    requires lines != [] && IsQuit(TrimSpace(lines[0]))
    ensures Program(hs, fs, lines, env) == None
  {
    QuitFirst(hs, fs, lines);
  }

  /** With no input the lists stay as loaded, with nothing selected, so
      nothing is attempted. */
  lemma EmptyInputSendsNothing(hs: seq<Host>, fs: seq<FileEntry>, env: Env)
    requires forall j :: 0 <= j < |hs| ==> !hs[j].isSelected
    ensures Program(hs, fs, [], env) == Some(Outcome([], map[], []))
  {
    EmptyInputSends(hs, fs);
    NoHostSelected(hs, fs, env);
  }

  /** Choosing the first host and the first file by number, from the lists
      as loaded (nothing selected): "1", "n", "1", "n" sends that file to
      that host and nothing else. Every call serves the first host, the
      calls after the handshake are the first entry's, only the first host
      can fail, and only the first entry's source can be in the map. */
  lemma FirstHostFirstFile(h: Host, hs: seq<Host>, f: FileEntry, fs: seq<FileEntry>, env: Env)
    requires !h.isSelected && forall j :: 0 <= j < |hs| ==> !hs[j].isSelected
    requires !f.isSelected && forall k :: 0 <= k < |fs| ==> !fs[k].isSelected
    ensures var lines := ["1", "n", "1", "n"];
            Program([h] + hs, [f] + fs, lines, env)
            == Some(RunTransfer([FlipHost(h)] + hs, [FlipFile(f)] + fs, env))
    ensures var o := RunTransfer([FlipHost(h)] + hs, [FlipFile(f)] + fs, env);
            forall op :: op in o.ops ==>
              op.host == 0 && (op.Dial? || op.NewClient? || op in EntryOps(0, FlipFile(f), env))
    ensures var o := RunTransfer([FlipHost(h)] + hs, [FlipFile(f)] + fs, env);
            forall j: nat :: j in o.failedHosts <==> j == 0 && !Connects(env, 0)
    ensures var o := RunTransfer([FlipHost(h)] + hs, [FlipFile(f)] + fs, env);
            forall src :: src in o.failedFiles <==>
              Connects(env, 0) && src == f.src && EntryFails(0, FlipFile(f), env)
  {
    var lines := ["1", "n", "1", "n"];
    OneAndNext();
    FlipsInvolutive();
    ToggleFirst(h, hs, FlipHost);
    ToggleFirst(f, fs, FlipFile);
    PickThenSend([h] + hs, [f] + fs, lines, HostStage, FileStage);
    var hosts := [FlipHost(h)] + hs;
    var files := [FlipFile(f)] + fs;
    assert forall j :: 0 < j < |hosts| ==> hosts[j] == hs[j - 1];
    assert forall k :: 0 < k < |files| ==> files[k] == fs[k - 1];
    OnlyFirstSelected(hosts, files, env);
  }

  /** "1" is a line of numbers and "n" a next line, at both stages. */
  lemma OneAndNext()
    ensures HostCommand("1") == Toggle && HostCommand("n") == Next
    ensures FileCommand("1") == Toggle && FileCommand("n") == Next
  {
    TrimSpaceOfTrimmed("1");
    TrimSpaceOfTrimmed("n");
  }

  /** The line "1" flips the first entry only. */
  lemma ToggleFirst<T(!new)>(x: T, xs: seq<T>, flip: T -> T)
    requires Involutive(flip)
    ensures Toggled([x] + xs, "1", flip) == [flip(x)] + xs
  {
    assert NatToString(1) == "1";
    ToggleByNumber([x] + xs, 0, flip);
    assert ([x] + xs)[0 := flip(x)] == [flip(x)] + xs;
  }

  /** A line of numbers and a next line at each stage: the menu applies
      the first line to the hosts, the third to the files, and goes on to
      send. */
  lemma PickThenSend<H, F>(hs: seq<H>, fs: seq<F>, lines: seq<string>,
                           hostStage: Stage<H>, fileStage: Stage<F>)
    requires |lines| == 4
    requires hostStage.command(lines[0]) == Toggle && hostStage.command(lines[1]) == Next
    requires fileStage.command(lines[2]) == Toggle && fileStage.command(lines[3]) == Next
    ensures Menu(hs, fs, lines, 0, hostStage, fileStage)
            == MenuResult(Toggled(hs, lines[0], hostStage.flip), Toggled(fs, lines[2], fileStage.flip), Send, 4)
  {
    var hs1 := Toggled(hs, lines[0], hostStage.flip);
    var fs1 := Toggled(fs, lines[2], fileStage.flip);
    StageAtNumbers(hs, lines, 0, hostStage);
    StageAtCommand(hs1, lines, 1, hostStage);
    StageAtNumbers(fs, lines, 2, fileStage);
    StageAtCommand(fs1, lines, 3, fileStage);
  }
}
