# Remote File Sender in Dafny

Remote File Sender is a small terminal program. It reads a JSON configuration holding a list of remote hosts and a list of file entries. A file entry has a local source path and a remote destination path.

The program runs a two-stage menu:
- At the host stage the user types the numbers shown in front of hosts, which toggles their selection.
- The file stage works the same way for file entries.
- `q`, `quit` or `exit` ends the program at either stage.
- `n` or `next` moves on.
- `p` or `pre` goes back from the file stage to the host stage.

When the file stage moves on or the input ends, every selected host is dialled over SSH. On each host whose SFTP session opens, every selected entry is attempted:
- a regular file is copied;
- a directory entry only gets its remote directory created, and the files in it are never sent;
- a missing source is recorded as not found.

A host whose dial or SFTP handshake fails gets nothing. At the end the program prints how many hosts and how many files failed.

This project models that core and proves what it does.

| file | module | models |
|---|---|---|
| `text.dfy` | `Text` | The Go library functions the menu relies on: `strings.TrimSpace`, `strings.Fields` with Unicode white space, `strconv.ParseInt(s, 10, 64)`, the `%d`, `%Ns` and `%-Ns` verbs and `strings.Repeat`. |
| `lib.dfy` | `Lib` | `lib.go`: the path queries over a file system given as a map, `alignCenter` and `isValidIndex`. |
| `model.dfy` | `Model` | `model.go`: hosts and file entries with their selection flags, the `Config` class (two arrays updated in place), the choice of configuration file in `Config.init`, and `Hosts.String` and `Files.String`. |
| `selection.dfy` | `Selection` | `selectHosts`, `selectFiles` and the loop in `main` that runs them. The terminal is a sequence of input lines. |
| `transfer.dfy` | `Transfer` | `sendFiles`. The network and the disks are an environment that answers whether each call succeeds. |
| `session.dfy` | `Session` | `main` after the configuration is loaded: the menu, then `sendFiles`. |

Each stage is modelled twice:
- `SelectStage` is a method with a loop. It toggles `isSelected` in place in the configuration's array, as the source does.
- `RunStage` is a function that specifies the method.

A line of numbers is handled as in the source:
- `CollectIndexes` is the first loop. It collects the indexes.
- The loop in `ToggleSelection` is the second. It flips each collected index.
- Lemma `TwoLoopsAsOne` proves that the two loops do what one pass over the tokens (`ApplyNumbers`) does.

The properties of the menu are proved about these functions:
- a number typed twice cancels out;
- a number shown in the listing reads back and toggles exactly its entry;
- the menu exits only on a quit word;
- going back keeps the file toggles.

`sendFiles` is modelled twice in the same way:
- `SendFiles` runs the two loops.
- `RunTransfer` is a left fold that specifies it.

It is characterised in terms of an environment `Env`:
- the failed hosts, and their order;
- the keys and reasons of the map of failed files;
- which calls are made, and which are not;
- the printed counts.

## Model

| member | source | states |
|---|---|---|
| Text.TrimSpace | main.go:73 | The trimmed line is empty or begins and ends with a non-space character. |
| Text.TrimSpaceShape | main.go:73 | TrimSpace returns the middle of the line, with only Unicode white space before and after it. |
| Text.TrimSpaceOfTrimmed | main.go:73 | Text without white space at either end is unchanged by TrimSpace (TrimSpace is idempotent). |
| Text.TrimLeftShape | main.go:73 | Trimming the front drops exactly a leading run of white space. |
| Text.TrimRightShape | main.go:73 | Trimming the back drops exactly a trailing run of white space. |
| Text.TrimLeftSpaces | main.go:73 | Leading blanks in front of a token are all dropped. |
| Text.TokenEnd | main.go:84 | The first field of a line ends at a white-space character or at the end. |
| Text.TokenEndRun | main.go:84 | Everything before the end of the first field is non-space. |
| Text.FieldsAreTokens | main.go:84 | Every field of strings.Fields is non-empty and has no white space. |
| Text.FieldsOfTokenThen | main.go:84 | A token followed by a blank is the first field, and the rest splits on its own. |
| Text.FieldsOfJoin | main.go:84 | Splitting tokens joined by blanks gives back the tokens: Fields is the inverse of joining. |
| Text.FieldsSkipsSpace | main.go:84 | A leading blank does not change the fields. |
| Text.ParseInt | main.go:85 | A successful parse lies in the int64 range (out-of-range and malformed numbers are errors). |
| Text.ParseIntOfNatToString | main.go:85 | ParseInt reads back the decimal form that %d prints, for every value up to the int64 maximum. |
| Text.NatToString | model.go:77 | %d of a non-negative number is a non-empty string of digits, with no leading zero. |
| Text.NatToStringValue | model.go:77 | The digits %d prints have the number's value. |
| Text.NatToStringIsToken | model.go:77 | The decimal form of a number is a single field. |
| Text.AllDigitsAt | main.go:85 | The recursive digit check holds exactly when every character is a digit. |
| Text.DigitChar | model.go:77 | Each digit character has its digit's value. |
| Text.Repeat | lib.go:44 | strings.Repeat(c, n) has length n. The count is a nat: Go panics on a negative count, and alignCenter never passes one. |
| Text.RepeatIsAll | lib.go:44 | Every character of strings.Repeat(c, n) is c. |
| Text.PadLeft | model.go:77 | %Ns has width N, or the string's length if longer. |
| Text.PadRight | model.go:77 | %-Ns has width N, or the string's length if longer. |
| Text.PadShapes | model.go:77 | The padded field holds the string at its aligned end and blanks elsewhere. |
| Lib.PathQueriesPartition | lib.go:8-34 | isFile and isDir are never both true. A missing path is neither. An existing path is exactly one of them, and special files count as files. |
| Lib.AlignCenter | lib.go:36-45 | A string at least fullSize long is returned unchanged. Otherwise the result is fullSize long and holds s between runs of blanks, with the odd blank on the right. |
| Lib.ValidIndexIsPosition | lib.go:47-53 | isValidIndex(k, n) holds exactly when k - 1 is a position in an n-element list. |
| Model.Config.constructor | model.go:10-38 | After decoding, both arrays hold the configured entries, all unselected. |
| Model.LoadConfig | model.go:40-61 | An empty path is an error. A missing path falls back to RFS_CONFIG. A configuration loads only from an existing file that opens and decodes. The not-found error names the fallback path. |
| Model.HostsHeader | model.go:67-70 | The host heading ends its line. |
| Model.FilesHeader | model.go:87-91 | The file heading ends its line. |
| Model.MarkerColumn | model.go:73-77 | The marker column has its width, is blank except for its last character, and that character is '*' exactly for a selected entry. |
| Model.Row | model.go:77 | A row begins with its marker column. |
| Model.HostRow | model.go:72-78 | A host row shows '*' in its third column exactly when the host is selected. |
| Model.HostRowEndsLine | model.go:77 | Every host row ends its line. |
| Model.HostRowShowsNumber | model.go:77 | The i-th host row shows i + 1 in brackets, as %2d. |
| Model.FileFirstLine | model.go:93-98 | A file row shows '*' in its third column exactly when the entry is selected. |
| Model.FileRowShowsPaths | model.go:98-99 | The first line of an entry ends with its source path. The second ends with its destination path and an empty line. |
| Model.FileRowShowsNumber | model.go:98 | The j-th entry's first line shows j + 1 in brackets. |
| Model.RowShowsNumber | model.go:77 | The number column sits right after the marker and " [". |
| Model.LabelReadsBack | model.go:77 | The number shown, once trimmed, is what ParseInt reads back as the same number. |
| Model.Listing | model.go:64-82 | A listing is the header, every row and one final newline. |
| Model.ListingShowsRow | model.go:72-78 | The i-th entry's row appears in the listing right after the header and the rows before it, in list order. |
| Model.ListingFrame | model.go:80-81 | A listing opens with its header and ends with an empty line. |
| Model.RowsPrefix | model.go:72-78 | The rows of the first m entries begin the rows of the first n >= m. |
| Model.HostsString | model.go:64-82 | The listing built row by row into the buffer equals the host listing of the array's contents. |
| Model.FilesString | model.go:84-104 | The listing built two lines per entry equals the file listing of the array's contents. |
| Selection.StagesReadAlike | main.go:75-82 | The host stage never reads a back line. The file stage reads a line as the host stage does, except for the back words. |
| Selection.QuitWords | main.go:75-77 | Both stages quit exactly on q, quit or exit, after trimming. |
| Selection.NextWords | main.go:130-133 | The file stage moves on exactly on n or next, after trimming. |
| Selection.CollectIndexes | main.go:84-97 | The first loop collects, in order, k - 1 for each field that parses to a valid number k, and every collected index is a position in the list. |
| Selection.ValidIndexesInRange | main.go:91-96 | Every collected index is a position in the list. |
| Selection.ValidIndexesCount | main.go:84-97 | Position k is collected once for each field that parses to k + 1. |
| Selection.CollectedCount | main.go:85-96 | A single field contributes position k exactly when it parses to k + 1. |
| Selection.NoNumbersNoIndexes | main.go:84-97 | A line with no field that parses to a number from 1 to n collects nothing: unparseable fields and out-of-range numbers are skipped alike. |
| Selection.Flipped | main.go:99-101 | The second loop keeps the list's length. |
| Selection.FlippedCount | main.go:99-101 | After the second loop each entry has been flipped once per time its position was collected. |
| Selection.IterateInvolutive | main.go:100 | Flipping a flag c times gives the flag or its negation, by the parity of c. |
| Selection.FlipsInvolutive | main.go:100 | Negating isSelected twice restores the entry. |
| Selection.ApplyNumbers | main.go:84-101 | Applying the numbers keeps the list's length. |
| Selection.TwoLoopsAsOne | main.go:84-101 | Collecting the indexes and then flipping them equals one pass that flips as each number is read. |
| Selection.FlipOneMore | main.go:96-100 | One more collected index flips exactly that entry. |
| Selection.Toggled | main.go:84-101 | A line keeps the list's length. |
| Selection.ToggledSpec | main.go:84-101 | A line flips entry k exactly when k + 1 occurs on it an odd number of times. Every other entry, and every field that is not a valid number, changes nothing. |
| Selection.ToggleTwice | main.go:84-101 | Typing the same line twice restores the list. |
| Selection.ToggleByNumber | main.go:84-101 | Typing the number shown for entry i flips that entry and no other. |
| Selection.NoNumbersNoChange | main.go:84-101 | A line with no field that names an entry (every field fails to parse or is out of range, such as "0 3 -1" for two entries) leaves the list as it was. |
| Selection.ToggleSelection | main.go:84-103 | Handling one line in place leaves the array as the line's toggles of its old contents. |
| Selection.StageStop | main.go:71-82 | A stage stops after its first command line, or at the end of the input, never before where it started. |
| Selection.ReadUpTo | main.go:71-107 | The lines applied lie between the start and the stopping point. |
| Selection.StageStopsAtCommand | main.go:71-107 | Every line a stage applies is a line of numbers, and the line that ends it is the command that says how it ended. |
| Selection.ApplyLines | main.go:71-107 | Applying the lines in turn keeps the list's length. |
| Selection.ApplyLinesCons | main.go:71-107 | The first line is applied first. |
| Selection.RunStage | main.go:64-108 | A stage ends within the input and keeps the list's length. |
| Selection.StageAtCommand | main.go:75-82 | A stage whose first line is a command ends there with the list unchanged. |
| Selection.StageAtNumbers | main.go:71-107 | A stage whose first line holds numbers applies it and carries on from the next line. |
| Selection.StageEndsOn | main.go:110-161 | A stage ends at the end of the input, or just after a line it reads as quit, back or next, whichever its ending says. |
| Selection.SelectStage | main.go:64-161 | The method toggling the array line by line ends as RunStage says, with the array holding RunStage's list. |
| Selection.Menu | main.go:298-304 | The menu keeps both lists' lengths and ends within the input. |
| Selection.ChooseSelection | main.go:298-304 | The loop in main leaves config's arrays, its ending and its position as Menu specifies. |
| Selection.MenuExitsOnQuit | main.go:75-77 | The menu exits only just after a line a stage reads as quit. |
| Selection.MenuSendsOnNext | main.go:130-160 | The menu goes on to send only at the end of the input or just after a next line of the file stage. |
| Selection.MenuEnds | main.go:298-304 | With the real stages: exit only on a quit word, send only on a next word or at the end of the input. |
| Selection.EmptyInputSends | main.go:71 | With no input both stages end at once, nothing changes and the program goes on to send. |
| Selection.QuitFirst | main.go:75-77 | A quit word as the first line exits with nothing changed. |
| Selection.BackKeepsToggles | main.go:125-128 | Going back from the file stage restarts the host stage with the file toggles kept. |
| Selection.BackKeepsFileToggles | main.go:125-128 | The same, for the lines "n", a line of numbers, "p". |
| Transfer.SendEntryEffect | main.go:204-277 | One entry on one host leaves the failed hosts alone. It makes exactly the calls of its kind of source. It adds its source to the map exactly when it fails there, with the last reason recorded. |
| Transfer.SendFiles | main.go:163-283 | The two loops compute exactly the specification fold RunTransfer over the configuration's arrays, which they do not change. |
| Transfer.AfterEntriesOps | main.go:203-278 | The loop over entries appends the entries' calls in order and leaves the failed hosts alone. |
| Transfer.RunTransferOps | main.go:167-279 | The calls of a run are the calls of each host's pass, host after host. |
| Transfer.EntriesOpsHas | main.go:203-278 | A call of the entry loop belongs to some entry's pass, and every call of every entry's pass is made. |
| Transfer.RunOpsHas | main.go:167-279 | A call of the run belongs to some host's pass, and every call of every host's pass is made. |
| Transfer.EntryOpsShape | main.go:208-277 | An entry's calls are tagged with its host and come only from a selected, existing source. Create and Copy are only for a source that is a file, to its destination. MkdirAll and Readdir are only for a directory. |
| Transfer.HostOpsShape | main.go:167-201 | A host's calls come only from a selected host. The client is set up only after a successful dial. Entries are sent only through a client. |
| Transfer.CallsOfRun | main.go:167-279 | Every call of a run serves a selected host. Calls after the dial went through a connection. Entry calls went through a client and belong to a selected entry. |
| Transfer.CallsMade | main.go:167-279 | Every selected host is dialled. Every connected host gets the client call, and every call of every selected entry's pass. |
| Transfer.DialsSelected | main.go:167-191 | A run dials exactly the selected hosts. |
| Transfer.OnlyFilesAreCopied | main.go:213-274 | Every Create and Copy is for a selected entry whose source is a file: a directory's contents are never sent. |
| Transfer.FailedHostsExact | main.go:184-200 | The failed hosts are exactly the selected hosts whose dial or SFTP handshake fails, each once, in configuration order. |
| Transfer.AfterEntriesFailures | main.go:203-278 | The entry loop adds a source to the map exactly when an entry with that source fails, and keeps every reason consistent with the kind of the source. |
| Transfer.FailedFilesExact | main.go:167-279 | A source is in the map exactly when it failed on some selected, connected host. Its reason matches the source: SourceNotFound for a missing path, ReaddirFailed for a directory, CreateFailed or CopyFailed for a file. |
| Transfer.Sources | main.go:203-209 | There are no more distinct source paths than entries. |
| Transfer.SourcesHas | main.go:203-209 | Every entry's source is among the source paths. |
| Transfer.FailureCounts | main.go:281-282 | The printed counts are at most the number of hosts and at most the number of entries. |
| Transfer.NoHostSelected | main.go:167-170 | With no host selected nothing is attempted and nothing fails. |
| Transfer.NoFileSelected | main.go:203-206 | With no entry selected no file fails, and the only calls are the connection calls. |
| Transfer.OnlyFirstSelected | main.go:167-279 | When only the first host and the first entry are selected, every call serves the first host. The only calls after the handshake are the first entry's. A host fails exactly when it is the first host, selected and not connected. A key is in the map exactly when it is the first entry's source, it failed on the first host, and that host connected. |
| Transfer.MissingSourceReported | main.go:208-211 | A selected entry with a missing source is reported as not found once some selected host connects. |
| Transfer.CreateEvenWhenOpenFails | main.go:255-274 | A file that cannot be opened is still created remotely. It is reported as failed at Create or at Copy, never at os.Open. |
| Transfer.SummaryReadsBack | main.go:281-282 | The report prints both counts, each on its own line, readable back as numbers. |
| Transfer.MissingSourceScenario | main.go:163-283 | With one connectable host and one missing source, the run connects, sends nothing, and reports 0 failed hosts and 1 failed file. |
| Session.Run | main.go:298-306 | main leaves the lists as the menu did. It sends exactly when the menu did not exit, and returns the result of the specification Program. |
| Session.DialsChosenHosts | main.go:298-306 | The hosts dialled are exactly those selected when the menu ends. |
| Session.QuitSendsNothing | main.go:75-77 | A quit word as the first line sends nothing. |
| Session.EmptyInputSendsNothing | main.go:298-306 | With no input the freshly loaded lists select nothing, so nothing is attempted. |
| Session.PickThenSend | main.go:298-306 | A line of numbers and a next line at each stage apply the first line to the hosts and the third to the files, then send. |
| Session.OneAndNext | main.go:75-82 | "1" is a line of numbers and "n" a next line, at both stages. |
| Session.ToggleFirst | main.go:84-101 | The line "1" flips the first entry only. |
| Session.FirstHostFirstFile | main.go:298-306 | From lists as loaded, with nothing selected, "1", "n", "1", "n" sends the first file entry to the first host and nothing else. Every call serves the first host, and the only calls after the handshake are that entry's. The first host is the only one that can fail, and that entry's source is the only key the map can hold. |

## Left out

- Terminal output is not modelled:
  - the banner from `getIntroStr` (it centres the title with `alignCenter`);
  - the listings' " > " prompt;
  - `fmt.Println(err)` on a failed dial;
  - the two summary lines, which are modelled as the string `Transfer.Summary`.
- Clearing the terminal with `clear` is not modelled.
- The command-line flag is not modelled. `LoadConfig` takes the path as a parameter.
- `os.Exit(0)` on a quit word is modelled as the menu ending with `Exit`, after which nothing is sent.
- `log.Fatal` on a configuration error is modelled as a `LoadFailed` result.
- The JSON decoding is not modelled. `LoadConfig` takes whether opening and decoding succeed as parameters. `Config` is built from the decoded lists.
- The configuration loading stops at the choice and loading of the file. `Session.Run` starts from a loaded `Config`.
- The SSH and SFTP protocols and the network are not modelled. `Env` says whether each call succeeds for the pass over a given host:
  - the dial, including its 3-second timeout and the host-key callback that accepts any key;
  - the SFTP handshake;
  - `os.Open`;
  - `Readdir`;
  - `Create`;
  - `io.Copy`.
- The bytes copied are not modelled, nor is the error value stored in the map. The map holds a `FailReason`.
- The deferred `Close` calls are not modelled. They run only when `sendFiles` returns.
- `os.Stat` is modelled by a `FileSystem` map that does not change during a run. Under it the "unexpected case" branch (`main.go:275-277`) is unreachable, and `isDir` inside the loop over a directory's children is always true, so no child is ever sent.
- A `Stat` error other than "does not exist" makes `pathExists` true in the source and then panics on the nil `FileInfo`. This is not modelled: `PathKind` has no such case.
- Each stage creates its own `bufio.Scanner` on standard input. Input that one scanner reads ahead and does not use is lost in the source. The model has the stages share one sequence of lines.
- On a terminal, end of input (Ctrl-D) ends only the stage whose scanner reads it. The next stage creates a new `bufio.Scanner` (`main.go:65`, `main.go:111`) and goes on reading. The model treats the end of the line sequence as final: both stages end and the menu sends (`Selection.EmptyInputSends`, and the end-of-input case of `Selection.MenuSendsOnNext` and `Selection.MenuEnds`).
- The scanner's 64 KB line limit is not modelled.
- `int(i)` at `main.go:91` and `main.go:142` is modelled as the identity, which holds where Go's `int` has 64 bits. Where `int` has 32 bits the conversion truncates, so "4294967297" would toggle entry 1. In the model that number is out of range and changes nothing.
- `Text.PadLeft` and `Text.PadRight` count characters, while `fmt` counts runes. These agree because a `string` here is a sequence of characters.
- Invalid UTF-8 input is not modelled.
- `alignCenter` counts bytes in the source and characters in the model.
- `Selection.StageStop` and `Selection.Menu` are specified on `Stage` values, which pair a line reader with a flip function. The program uses them with `HostStage` and `FileStage` only.
