/** main.go: the two menu stages (selectHosts and selectFiles) and the loop
    in main that runs them until the file stage moves on. The terminal is a
    sequence of input lines; the listings printed between lines are the
    Model module's, and clearing the screen is not modelled. */
module Selection {
  import opened Text
  import opened Lib
  import opened Model

  // ---------------------------------------------------------------------
  // Reading a line

  /** What a line typed at a stage asks for. */
  datatype Command = Quit | Back | Next | Toggle

  predicate IsQuit(t: string) {
    t == "q" || t == "quit" || t == "exit"
  }

  predicate IsNext(t: string) {
    t == "n" || t == "next"
  }

  predicate IsBack(t: string) {
    t == "p" || t == "pre"
  }

  /** selectHosts: the trimmed line is checked for the quit words, then for
      the next words; any other line is read for numbers. */
  function HostCommand(line: string): Command
  {
    var t := TrimSpace(line);
    if IsQuit(t) then Quit else if IsNext(t) then Next else Toggle
  }

  /** selectFiles: the quit words, then the back words, then the next words. */
  function FileCommand(line: string): Command
  {
    var t := TrimSpace(line);
    if IsQuit(t) then Quit else if IsBack(t) then Back else if IsNext(t) then Next else Toggle
  }

  /** The stages read a line alike, except that only the file stage knows
      the back words: at the host stage "p" and "pre" are lines of numbers
      (that hold none). */
  lemma StagesReadAlike(line: string)
    ensures HostCommand(line) != Back
    ensures FileCommand(line) == (if IsBack(TrimSpace(line)) then Back else HostCommand(line))
  {
  }

  /** Both stages quit on the same words. */
  lemma QuitWords(line: string)
    ensures HostCommand(line) == Quit <==> IsQuit(TrimSpace(line))
    ensures FileCommand(line) == Quit <==> IsQuit(TrimSpace(line))
  {
  }

  /** The file stage moves on exactly on the next words. */
  lemma NextWords(line: string)
    ensures FileCommand(line) == Next <==> IsNext(TrimSpace(line))
  {
  }

  // ---------------------------------------------------------------------
  // The numbers on a line

  /** Every element of idx is a position of an n-element list. */
  predicate InRange(idx: seq<int>, n: int) {
    forall i :: 0 <= i < |idx| ==> 0 <= idx[i] < n
  }

  /** How many of the tokens strconv.ParseInt reads as v. */
  function Occurrences(tokens: seq<string>, v: int): nat
  {
    if tokens == [] then 0
    else
      Occurrences(tokens[..|tokens| - 1], v)
      + (if ParseInt(tokens[|tokens| - 1]) == Some(v) then 1 else 0)
  }

  /** selectedIndexes after the first loop of a line: for every token, in
      order, that parses as a k with isValidIndex(k, n), the position k - 1. */
  function ValidIndexes(tokens: seq<string>, n: int): seq<int>
  {
    if tokens == [] then []
    else
      ValidIndexes(tokens[..|tokens| - 1], n) + Collected(ParseInt(tokens[|tokens| - 1]), n)
  }

  /** Every collected index is a position of the n-entry list. */
  lemma {:induction false} ValidIndexesInRange(tokens: seq<string>, n: int)
    ensures InRange(ValidIndexes(tokens, n), n)
  {
    if tokens != [] {
      ValidIndexesInRange(tokens[..|tokens| - 1], n);
    }
  }

  /** Position k is collected once for every token that reads as k + 1. */
  lemma {:induction false} ValidIndexesCount(tokens: seq<string>, n: int, k: int)
    requires 0 <= k < n
    ensures multiset(ValidIndexes(tokens, n))[k] == Occurrences(tokens, k + 1)
  {
    if tokens != [] {
      var front := tokens[..|tokens| - 1];
      ValidIndexesCount(front, n, k);
      var v := ParseInt(tokens[|tokens| - 1]);
      var tail := Collected(v, n);
      assert ValidIndexes(tokens, n) == ValidIndexes(front, n) + tail;
      assert multiset(ValidIndexes(tokens, n)) == multiset(ValidIndexes(front, n)) + multiset(tail);
      CollectedCount(v, n, k);
    }
  }

  /** What one parsed token adds to selectedIndexes. */
  function Collected(v: Option<int>, n: int): seq<int>
  {
    if v.Some? && IsValidIndex(v.value, n) then [v.value - 1] else []
  }

  lemma CollectedCount(v: Option<int>, n: int, k: int)
    requires 0 <= k < n
    ensures multiset(Collected(v, n))[k] == if v == Some(k + 1) then 1 else 0
  {
  }

  /** A line none of whose tokens is a number from 1 to n collects
      nothing: tokens that do not parse and numbers out of range are
      skipped alike. */
  lemma {:induction false} NoNumbersNoIndexes(tokens: seq<string>, n: int)
    requires forall j :: 0 <= j < |tokens| ==>
               ParseInt(tokens[j]).None? || !IsValidIndex(ParseInt(tokens[j]).value, n)
    ensures ValidIndexes(tokens, n) == []
  {
    if tokens != [] {
      NoNumbersNoIndexes(tokens[..|tokens| - 1], n);
    }
  }

  /** The first loop over strings.Fields(line), as the source runs it. It
      changes nothing. */
  method CollectIndexes(line: string, n: int) returns (idx: seq<int>)
    ensures idx == ValidIndexes(Fields(line), n)
    ensures InRange(idx, n)
  {
    var tokens := Fields(line);
    idx := [];
    for t := 0 to |tokens|
      invariant idx == ValidIndexes(tokens[..t], n)
    {
      assert tokens[..t + 1][..t] == tokens[..t];
      var i := ParseInt(tokens[t]);
      if i.None? {
        continue;
      }
      if !IsValidIndex(i.value, n) {
        continue;
      }
      idx := idx + [i.value - 1];
    }
    assert tokens[..|tokens|] == tokens;
    ValidIndexesInRange(tokens, n);
  }

  // ---------------------------------------------------------------------
  // Flipping the selection

  /** The second loop: the entry at each collected position, in order, is
      replaced by flip of it. */
  function Flipped<T>(s: seq<T>, idx: seq<int>, flip: T -> T): (r: seq<T>)
    requires InRange(idx, |s|)
    ensures |r| == |s|
  {
    if idx == [] then s
    else
      var t := Flipped(s, idx[..|idx| - 1], flip);
      var k := idx[|idx| - 1];
      t[k := flip(t[k])]
  }

  /** f applied c times. */
  function Iterate<T>(f: T -> T, c: nat, x: T): T
  {
    if c == 0 then x else f(Iterate(f, c - 1, x))
  }

  /** After the second loop, each entry has been flipped once per time its
      position was collected. */
  lemma {:induction false} FlippedCount<T>(s: seq<T>, idx: seq<int>, flip: T -> T, k: int)
    requires InRange(idx, |s|) && 0 <= k < |s|
    ensures Flipped(s, idx, flip)[k] == Iterate(flip, multiset(idx)[k], s[k])
  {
    if idx != [] {
      var front := idx[..|idx| - 1];
      var last := idx[|idx| - 1];
      FlippedCount(s, front, flip, k);
      assert idx == front + [last];
      assert multiset(idx) == multiset(front) + multiset{last};
    }
  }

  ghost predicate Involutive<T(!new)>(f: T -> T) {
    forall x :: f(f(x)) == x
  }

  /** An involution applied c times is the identity or itself, by parity. */
  lemma {:induction false} IterateInvolutive<T(!new)>(f: T -> T, c: nat, x: T)
    requires Involutive(f)
    ensures Iterate(f, c, x) == if c % 2 == 0 then x else f(x)
  {
    if c > 0 {
      IterateInvolutive(f, c - 1, x);
    }
  }

  /** Negating isSelected, the only change a stage makes to an entry. */
  function FlipHost(h: Host): Host {
    h.(isSelected := !h.isSelected)
  }

  function FlipFile(f: FileEntry): FileEntry {
    f.(isSelected := !f.isSelected)
  }

  lemma FlipsInvolutive()
    ensures Involutive(FlipHost) && Involutive(FlipFile)
  {
  }

  /** The effect of a line's tokens on a list, token by token: each that
      parses as the number of an entry flips that entry. */
  function ApplyNumbers<T>(s: seq<T>, tokens: seq<string>, flip: T -> T): (r: seq<T>)
    ensures |r| == |s|
  {
    if tokens == [] then s
    else
      var t := ApplyNumbers(s, tokens[..|tokens| - 1], flip);
      var v := ParseInt(tokens[|tokens| - 1]);
      if v.Some? && IsValidIndex(v.value, |s|) then t[v.value - 1 := flip(t[v.value - 1])] else t
  }

  /** The source's two loops, collecting the indexes and then flipping
      them, do what one pass over the tokens does. */
  lemma {:induction false} TwoLoopsAsOne<T>(s: seq<T>, tokens: seq<string>, flip: T -> T)
    ensures InRange(ValidIndexes(tokens, |s|), |s|)
    ensures Flipped(s, ValidIndexes(tokens, |s|), flip) == ApplyNumbers(s, tokens, flip)
  {
    ValidIndexesInRange(tokens, |s|);
    if tokens != [] {
      var front := tokens[..|tokens| - 1];
      TwoLoopsAsOne(s, front, flip);
      ValidIndexesInRange(front, |s|);
      FlipOneMore(s, ValidIndexes(front, |s|), ParseInt(tokens[|tokens| - 1]), flip);
    }
  }

  /** Flipping what one more parsed token collects. */
  lemma FlipOneMore<T>(s: seq<T>, a: seq<int>, v: Option<int>, flip: T -> T)
    requires InRange(a, |s|)
    ensures InRange(a + Collected(v, |s|), |s|)
    ensures Flipped(s, a + Collected(v, |s|), flip)
      == if v.Some? && IsValidIndex(v.value, |s|)
         then Flipped(s, a, flip)[v.value - 1 := flip(Flipped(s, a, flip)[v.value - 1])]
         else Flipped(s, a, flip)
  {
    var c := Collected(v, |s|);
    if c == [] {
      assert a + c == a;
    } else {
      assert (a + c)[..|a|] == a;
    }
  }

  /** What one line of numbers does to a list. */
  function Toggled<T>(s: seq<T>, line: string, flip: T -> T): (r: seq<T>)
    ensures |r| == |s|
  {
    ApplyNumbers(s, Fields(line), flip)
  }

  /** A line flips the entry at position k exactly when the number k + 1
      occurs on it an odd number of times; every other entry stays as it
      was. Tokens that are not numbers, or not numbers of entries, are
      skipped. */
  lemma ToggledSpec<T(!new)>(s: seq<T>, line: string, flip: T -> T, k: int)
    requires Involutive(flip) && 0 <= k < |s|
    ensures |Toggled(s, line, flip)| == |s|
    ensures Toggled(s, line, flip)[k]
            == if Occurrences(Fields(line), k + 1) % 2 == 1 then flip(s[k]) else s[k]
  {
    var idx := ValidIndexes(Fields(line), |s|);
    TwoLoopsAsOne(s, Fields(line), flip);
    FlippedCount(s, idx, flip, k);
    ValidIndexesCount(Fields(line), |s|, k);
    IterateInvolutive(flip, multiset(idx)[k], s[k]);
  }

  /** Typing the same line twice undoes it. */
  lemma ToggleTwice<T(!new)>(s: seq<T>, line: string, flip: T -> T)
    requires Involutive(flip)
    ensures Toggled(Toggled(s, line, flip), line, flip) == s
  {
    var t := Toggled(s, line, flip);
    var u := Toggled(t, line, flip);
    forall k | 0 <= k < |s|
      ensures u[k] == s[k]
    {
      ToggledSpec(s, line, flip, k);
      ToggledSpec(t, line, flip, k);
    }
  }

  /** Typing the number shown in front of an entry (LabelReadsBack) flips
      that entry and no other. */
  lemma ToggleByNumber<T(!new)>(s: seq<T>, i: nat, flip: T -> T)
    requires Involutive(flip) && i < |s| && i < MaxInt64
    ensures Toggled(s, NatToString(i + 1), flip) == s[i := flip(s[i])]
  {
    var line := NatToString(i + 1);
    NatToStringIsToken(i + 1);
    FieldsOfJoin([line]);
    assert Fields(line) == [line];
    ParseIntOfNatToString(i + 1);
    var t := Toggled(s, line, flip);
    ToggledSpec(s, line, flip, i);
    forall k | 0 <= k < |s|
      ensures t[k] == s[i := flip(s[i])][k]
    {
      ToggledSpec(s, line, flip, k);
      assert [line][..0] == [];
    }
  }

  /** A line without a number shown in the listing changes nothing: its
      fields do not parse or name no entry. */
  lemma NoNumbersNoChange<T>(s: seq<T>, line: string, flip: T -> T)
    requires forall j :: 0 <= j < |Fields(line)| ==>
               ParseInt(Fields(line)[j]).None? || !IsValidIndex(ParseInt(Fields(line)[j]).value, |s|)
    ensures Toggled(s, line, flip) == s
  {
    NoNumbersNoIndexes(Fields(line), |s|);
    TwoLoopsAsOne(s, Fields(line), flip);
  }

  /** One line of numbers, as the source handles it: the indexes are
      collected, then each entry named is flipped in place. */
  method ToggleSelection<T>(a: array<T>, line: string, flip: T -> T)
    modifies a
    ensures a[..] == Toggled(old(a[..]), line, flip)
  {
    var idx := CollectIndexes(line, a.Length);
    for t := 0 to |idx|
      invariant a[..] == Flipped(old(a[..]), idx[..t], flip)
    {
      assert idx[..t + 1][..t] == idx[..t];
      var k := idx[t];
      a[k] := flip(a[k]);
    }
    assert idx[..|idx|] == idx;
    TwoLoopsAsOne(old(a[..]), Fields(line), flip);
  }

  // ---------------------------------------------------------------------
  // A stage

  /** How a stage ended: a command line, or the end of the input. */
  datatype StageEnd = QuitLine | BackLine | NextLine | EndOfInput

  /** The list after a stage, how it ended and the position of the first
      line it did not read. */
  datatype StageResult<T> = StageResult(items: seq<T>, end: StageEnd, next: nat)

  function EndOf(c: Command): StageEnd
    requires c != Toggle
  {
    match c
    case Quit => QuitLine
    case Back => BackLine
    case Next => NextLine
  }

  /** Where a stage that starts reading at pos stops: at its first command
      line, which it consumes, or at the end of the input. It depends on the
      lines alone, not on the list. */
  function StageStop(lines: seq<string>, pos: nat, command: string -> Command): (r: (StageEnd, nat))
    requires pos <= |lines|
    ensures pos <= r.1 <= |lines|
    ensures r.0 == EndOfInput ==> r.1 == |lines|
    ensures r.0 != EndOfInput ==> pos < r.1
    decreases |lines| - pos
  {
    if pos == |lines| then (EndOfInput, pos)
    else if command(lines[pos]) == Toggle then StageStop(lines, pos + 1, command)
    else (EndOf(command(lines[pos])), pos + 1)
  }

  /** The lines a stage applies to its list: from pos up to the line that
      stopped it. */
  function ReadUpTo(lines: seq<string>, pos: nat, command: string -> Command): (k: nat)
    requires pos <= |lines|
    ensures pos <= k <= |lines|
  {
    var stop := StageStop(lines, pos, command);
    if stop.0 == EndOfInput then stop.1 else stop.1 - 1
  }

  /** Every line a stage applies to its list is a line of numbers: the stage
      stops at the first command line. */
  lemma {:induction false} StageStopsAtCommand(lines: seq<string>, pos: nat, command: string -> Command)
    requires pos <= |lines|
    ensures var r := StageStop(lines, pos, command);
            r.0 != EndOfInput ==> command(lines[r.1 - 1]) != Toggle && r.0 == EndOf(command(lines[r.1 - 1]))
    ensures forall j :: pos <= j < ReadUpTo(lines, pos, command) ==> command(lines[j]) == Toggle
    decreases |lines| - pos
  {
    if pos < |lines| && command(lines[pos]) == Toggle {
      StageStopsAtCommand(lines, pos + 1, command);
    }
  }

  /** The lines of numbers read so far, applied to the list in order. */
  function ApplyLines<T>(items: seq<T>, ls: seq<string>, flip: T -> T): (r: seq<T>)
    ensures |r| == |items|
  {
    if ls == [] then items
    else Toggled(ApplyLines(items, ls[..|ls| - 1], flip), ls[|ls| - 1], flip)
  }

  /** Prepending a line of numbers applies it first. */
  lemma {:induction false} ApplyLinesCons<T>(items: seq<T>, l: string, ls: seq<string>, flip: T -> T)
    ensures ApplyLines(items, [l] + ls, flip) == ApplyLines(Toggled(items, l, flip), ls, flip)
    decreases |ls|
  {
    if ls != [] {
      var front := ls[..|ls| - 1];
      assert ([l] + ls)[..|ls|] == [l] + front;
      ApplyLinesCons(items, l, front, flip);
    }
  }

  /** What tells the two stages apart: how a line is read and what flipping
      an entry's selection does. */
  datatype Stage<!T> = Stage(command: string -> Command, flip: T -> T)

  /** selectHosts and selectFiles. */
  const HostStage: Stage<Host> := Stage(HostCommand, FlipHost)
  const FileStage: Stage<FileEntry> := Stage(FileCommand, FlipFile)

  /** A stage reading lines from pos: the list after it, how it ended and
      the position of the first line it left unread. */
  function RunStage<T>(items: seq<T>, lines: seq<string>, pos: nat, stage: Stage<T>): (r: StageResult<T>)
    requires pos <= |lines|
    ensures pos <= r.next <= |lines| && |r.items| == |items|
  {
    var stop := StageStop(lines, pos, stage.command);
    StageResult(ApplyLines(items, lines[pos..ReadUpTo(lines, pos, stage.command)], stage.flip), stop.0, stop.1)
  }

  /** A stage whose first line is a command ends there, with the list as it
      was. */
  lemma StageAtCommand<T>(items: seq<T>, lines: seq<string>, pos: nat, stage: Stage<T>)
    requires pos < |lines| && stage.command(lines[pos]) != Toggle
    ensures RunStage(items, lines, pos, stage)
            == StageResult(items, EndOf(stage.command(lines[pos])), pos + 1)
  {
    assert lines[pos..pos] == [];
  }

  /** A stage whose first line holds numbers applies that line and goes on
      as a stage from the next line: the loop of selectHosts and
      selectFiles. */
  lemma StageAtNumbers<T>(items: seq<T>, lines: seq<string>, pos: nat, stage: Stage<T>)
    requires pos < |lines| && stage.command(lines[pos]) == Toggle
    ensures RunStage(items, lines, pos, stage)
            == RunStage(Toggled(items, lines[pos], stage.flip), lines, pos + 1, stage)
  {
    var k := ReadUpTo(lines, pos, stage.command);
    assert StageStop(lines, pos, stage.command) == StageStop(lines, pos + 1, stage.command);
    assert lines[pos..k] == [lines[pos]] + lines[pos + 1..k];
    ApplyLinesCons(items, lines[pos], lines[pos + 1..k], stage.flip);
  }

  /** The command line at p, reached from pos, is where the stage stops. */
  lemma StopsHere(lines: seq<string>, pos: nat, p: nat, command: string -> Command)
    requires pos <= p < |lines| && command(lines[p]) != Toggle
    requires StageStop(lines, p, command) == StageStop(lines, pos, command)
    ensures StageStop(lines, pos, command) == (EndOf(command(lines[p])), p + 1)
    ensures ReadUpTo(lines, pos, command) == p
  {
  }

  /** A line of numbers at p is applied and reading goes on at p + 1. */
  lemma ReadOneMore<T>(items: seq<T>, lines: seq<string>, pos: nat, p: nat,
                       command: string -> Command, flip: T -> T)
    requires pos <= p < |lines| && command(lines[p]) == Toggle
    ensures StageStop(lines, p + 1, command) == StageStop(lines, p, command)
    ensures ApplyLines(items, lines[pos..p + 1], flip)
            == Toggled(ApplyLines(items, lines[pos..p], flip), lines[p], flip)
  {
    var read := lines[pos..p + 1];
    assert read[..p - pos] == lines[pos..p] && read[p - pos] == lines[p];
  }

  /** How a stage ended, read off the line that ended it. */
  lemma StageEndsOn<T>(items: seq<T>, lines: seq<string>, pos: nat, stage: Stage<T>)
    requires pos <= |lines|
    ensures var r := RunStage(items, lines, pos, stage);
            (r.end == EndOfInput ==> r.next == |lines|)
            && (r.end == QuitLine ==> pos < r.next && stage.command(lines[r.next - 1]) == Quit)
            && (r.end == BackLine ==> pos < r.next && stage.command(lines[r.next - 1]) == Back)
            && (r.end == NextLine ==> pos < r.next && stage.command(lines[r.next - 1]) == Next)
  {
    StageStopsAtCommand(lines, pos, stage.command);
  }

  /** selectHosts and selectFiles: lines are read from pos until a command
      line or the end of the input, and each other line toggles entries of
      a in place. */
  method SelectStage<T>(a: array<T>, lines: seq<string>, pos: nat, stage: Stage<T>)
    returns (end: StageEnd, next: nat)
    requires pos <= |lines|
    modifies a
    ensures StageResult(a[..], end, next) == RunStage(old(a[..]), lines, pos, stage)
  {
    var p := pos;
    while p < |lines|
      invariant pos <= p <= |lines|
      invariant StageStop(lines, p, stage.command) == StageStop(lines, pos, stage.command)
      invariant a[..] == ApplyLines(old(a[..]), lines[pos..p], stage.flip)
      decreases |lines| - p
    {
      var line := lines[p];
      var c := stage.command(line);
      if c != Toggle {
        // a quit, back or next line ends the stage
        StopsHere(lines, pos, p, stage.command);
        return EndOf(c), p + 1;
      }
      ToggleSelection(a, line, stage.flip);
      ReadOneMore(old(a[..]), lines, pos, p, stage.command, stage.flip);
      p := p + 1;
    }
    assert ReadUpTo(lines, pos, stage.command) == p;
    return EndOfInput, p;
  }

  // ---------------------------------------------------------------------
  // The loop in main

  /** How the menu ended: the program exits (a quit line), or it goes on to
      send the selected files. */
  datatype SelectionEnd = Exit | Send

  /** Both lists after the menu, how it ended and the first line it left
      unread. */
  datatype MenuResult<H, F> = MenuResult(hosts: seq<H>, files: seq<F>, end: SelectionEnd, next: nat)

  /** The loop in main: the host stage, then the file stage, and again from
      the host stage while the file stage ends with a back line. The end of
      the input ends either stage like a next line. The program runs it with
      HostStage and FileStage. */
  function Menu<H, F>(hs: seq<H>, fs: seq<F>, lines: seq<string>, pos: nat,
                      hostStage: Stage<H>, fileStage: Stage<F>): (r: MenuResult<H, F>)
    requires pos <= |lines|
    ensures |r.hosts| == |hs| && |r.files| == |fs| && pos <= r.next <= |lines|
    decreases |lines| - pos
  {
    var h := RunStage(hs, lines, pos, hostStage);
    if h.end == QuitLine then MenuResult(h.items, fs, Exit, h.next)
    else
      var f := RunStage(fs, lines, h.next, fileStage);
      if f.end == QuitLine then MenuResult(h.items, f.items, Exit, f.next)
      else if f.end == BackLine then Menu(h.items, f.items, lines, f.next, hostStage, fileStage)
      else MenuResult(h.items, f.items, Send, f.next)
  }

  /** The loop in main, with config's lists changed in place. */
  method ChooseSelection(config: Config, lines: seq<string>) returns (end: SelectionEnd, next: nat)
    modifies config.hosts, config.files
    ensures MenuResult(config.hosts[..], config.files[..], end, next)
            == Menu(old(config.hosts[..]), old(config.files[..]), lines, 0, HostStage, FileStage)
  {
    var pos := 0;
    while true
      invariant pos <= |lines|
      invariant Menu(config.hosts[..], config.files[..], lines, pos, HostStage, FileStage)
                == Menu(old(config.hosts[..]), old(config.files[..]), lines, 0, HostStage, FileStage)
      decreases |lines| - pos
    {
      var hostEnd, afterHosts := SelectStage(config.hosts, lines, pos, HostStage);
      if hostEnd == QuitLine {
        return Exit, afterHosts;
      }
      var fileEnd, afterFiles := SelectStage(config.files, lines, afterHosts, FileStage);
      if fileEnd == QuitLine {
        return Exit, afterFiles;
      }
      if fileEnd != BackLine {
        return Send, afterFiles;
      }
      pos := afterFiles;
    }
  }

  /** The menu exits only on a line its stage reads as quit. */
  lemma {:induction false} MenuExitsOnQuit<H, F>(hs: seq<H>, fs: seq<F>, lines: seq<string>, pos: nat,
                                                 hostStage: Stage<H>, fileStage: Stage<F>)
    requires pos <= |lines|
    ensures var r := Menu(hs, fs, lines, pos, hostStage, fileStage);
            r.end == Exit ==>
              pos < r.next
              && (hostStage.command(lines[r.next - 1]) == Quit || fileStage.command(lines[r.next - 1]) == Quit)
    decreases |lines| - pos
  {
    var h := RunStage(hs, lines, pos, hostStage);
    StageEndsOn(hs, lines, pos, hostStage);
    if h.end != QuitLine {
      var f := RunStage(fs, lines, h.next, fileStage);
      StageEndsOn(fs, lines, h.next, fileStage);
      if f.end == BackLine {
        MenuExitsOnQuit(h.items, f.items, lines, f.next, hostStage, fileStage);
      }
    }
  }

  /** The menu goes on to send only at the end of the input or on a line the
      file stage reads as next. */
  lemma {:induction false} MenuSendsOnNext<H, F>(hs: seq<H>, fs: seq<F>, lines: seq<string>, pos: nat,
                                                 hostStage: Stage<H>, fileStage: Stage<F>)
    requires pos <= |lines|
    ensures var r := Menu(hs, fs, lines, pos, hostStage, fileStage);
            r.end == Send ==>
              r.next == |lines| || (pos < r.next && fileStage.command(lines[r.next - 1]) == Next)
    decreases |lines| - pos
  {
    var h := RunStage(hs, lines, pos, hostStage);
    if h.end != QuitLine {
      var f := RunStage(fs, lines, h.next, fileStage);
      StageEndsOn(fs, lines, h.next, fileStage);
      if f.end == BackLine {
        MenuSendsOnNext(h.items, f.items, lines, f.next, hostStage, fileStage);
      } else if f.end != QuitLine {
        assert Menu(hs, fs, lines, pos, hostStage, fileStage).next == f.next;
      }
    }
  }

  /** In the program: the menu exits only on a quit word, and goes on to
      send only at the end of the input or on a next word. */
  lemma MenuEnds(hs: seq<Host>, fs: seq<FileEntry>, lines: seq<string>)
    ensures var r := Menu(hs, fs, lines, 0, HostStage, FileStage);
            (r.end == Exit ==> 0 < r.next && IsQuit(TrimSpace(lines[r.next - 1])))
            && (r.end == Send ==> r.next == |lines| || (0 < r.next && IsNext(TrimSpace(lines[r.next - 1]))))
  {
    var r := Menu(hs, fs, lines, 0, HostStage, FileStage);
    MenuExitsOnQuit(hs, fs, lines, 0, HostStage, FileStage);
    MenuSendsOnNext(hs, fs, lines, 0, HostStage, FileStage);
    if 0 < r.next {
      QuitWords(lines[r.next - 1]);
      NextWords(lines[r.next - 1]);
    }
  }

  /** With no input at all both stages end at once and nothing changes: the
      program goes on to send. */
  lemma EmptyInputSends(hs: seq<Host>, fs: seq<FileEntry>)
    ensures Menu(hs, fs, [], 0, HostStage, FileStage) == MenuResult(hs, fs, Send, 0)
  {
  }

  /** A quit word as the first line ends the program with nothing changed. */
  lemma QuitFirst(hs: seq<Host>, fs: seq<FileEntry>, lines: seq<string>)
    requires lines != [] && IsQuit(TrimSpace(lines[0]))
    ensures Menu(hs, fs, lines, 0, HostStage, FileStage) == MenuResult(hs, fs, Exit, 1)
  {
    QuitWords(lines[0]);
    StageAtCommand(hs, lines, 0, HostStage);
  }

  /** Going back from the file stage keeps what was toggled there: after a
      next line, a line of numbers t and a back line, the menu starts over
      at the host stage with the files as t left them. */
  lemma {:induction false} BackKeepsToggles<H, F>(hs: seq<H>, fs: seq<F>, lines: seq<string>,
                                                  hostStage: Stage<H>, fileStage: Stage<F>)
    requires |lines| >= 3
    requires hostStage.command(lines[0]) == Next
    requires fileStage.command(lines[1]) == Toggle && fileStage.command(lines[2]) == Back
    ensures Menu(hs, fs, lines, 0, hostStage, fileStage)
            == Menu(hs, Toggled(fs, lines[1], fileStage.flip), lines, 3, hostStage, fileStage)
  {
    StageAtCommand(hs, lines, 0, hostStage);
    StageAtNumbers(fs, lines, 1, fileStage);
    StageAtCommand(Toggled(fs, lines[1], fileStage.flip), lines, 2, fileStage);
  }

  /** The same with the words the program reads: "n", a line of numbers, "p". */
  lemma BackKeepsFileToggles(hs: seq<Host>, fs: seq<FileEntry>, t: string, rest: seq<string>)
    requires FileCommand(t) == Toggle
    ensures var lines := ["n", t, "p"] + rest;
            Menu(hs, fs, lines, 0, HostStage, FileStage)
            == Menu(hs, Toggled(fs, t, FlipFile), lines, 3, HostStage, FileStage)
  {
    var lines := ["n", t, "p"] + rest;
    assert lines[0] == "n" && lines[1] == t && lines[2] == "p";
    TrimSpaceOfTrimmed("n");
    TrimSpaceOfTrimmed("p");
    BackKeepsToggles(hs, fs, lines, HostStage, FileStage);
  }
}
