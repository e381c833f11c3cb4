# Verified model of the incubator controller and its logging library

The repository is the controller of an egg incubator (`src/`) with a copy of the zlog logging
library (`zlog/`). This project models its stateful parts in Dafny and proves what they keep over
every run. `dafny verify dfyconfig.toml` checks everything.

Every method that changes state is proved against a specification function of the old state, and
the lemmas are about those functions: one call, whole histories, or two components together.

| files | part of the program |
|---|---|
| `IniText`, `IniModel`, `IniShape`, `IniMeaning`, `IniPrinted`, `IniNames`, `IniNormal`, `IniReload`, `IniTheorems`, `IniEdit`, `IniFile` | the INI reader, printer and index: text, the value of a file, what every step keeps, what a text means, printed lines, names with brackets, which texts are printed unchanged, which lookups survive a reload, the theorems about files, files edited in any order, and the classes that compute it |
| `HashTable`, `ArrayList` | the chained hash table with rehash and cursor, and the growable sorted list |
| `Rotater` | log archive rotation over a file system that maps archive numbers to contents |
| `LogBuffer` | the bounded log buffer |
| `LevelRules`, `CategoryTable` | output rules, the level bitmaps that cache them, and the two-phase rule update of a category and of the table |
| `Pid`, `Heater`, `Smoothing`, `Hysteresis` | control arithmetic |
| `Crc`, `BitErrors`, `ByteOrder` | frame check, the two-bit errors it detects, and register byte order |
| `Damper`, `Reflux` | the damper and the reflux valve, as steps of the main loop and of the timer |
| `CMath`, `Wrappers` | C's division and exclusive or; options and what else is shared |

Lemmas carry `{:induction false}`: every induction is written out in the body.

## Where the code does not keep a promise, and exactly when it does

- Reading an INI text and printing it gives the same lines if and only if the lines are normal: none is
  junk, each is written as it would be printed, no section and no key of a section occurs twice, and every
  title, or the comments in front of it, follow a blank line or begin the text (`NormalIsFixpoint`). A file that was
  read is printed the same after a reload if and only if no section name still begins with `[` or ends with
  `]` (`ParsedTextFixpoint`; `SwallowedName` gives a text that breaks it: a line such as `[ [a] ]`). For
  files that were indexed and assigned to, `FileFixpoint` gives the condition.
- Indexing a file by a section name or a key keeps its maps in agreement with its lists if and only if
  it was found before, or the name stays the same when it is read as a title, and the key shows no
  equals sign (`IniFile.Index`, `Section.Index`). `[ [a] ]` files a section as `[a]` and lists it as
  `a` (`BracketsDisagree`); `a=b` files a setting under `a=b` and lists it as `a` (`EqualsDisagree`).
- A file that was read, indexed and assigned to, in any order, finds exactly its settings again after a dump
  and a reload if and only if every setting is printed as a setting, and for every setting some section that has
  the same one is read under its section's name (`EditedFilesSurvive`). When the section in front of a later one
  without a name keeps its own name, this means: every section with settings keeps its name, and the one without a
  name has settings only in front (`NamesDecide`).
  - Keys that begin with `;` or `#` come back as comments (`ReloadLosesComments`), and a key such as `[a` with a
    value such as `b]` comes back as a title (`ReadAsTitle`).
  - Indexing a new file by `a` and then assigning to `y` under the empty name leaves no section in front that could
    do without a title, and the reload finds `y` in `a` (`RootlessLoses`).
  - Names alone do not decide in general: sections with the same setting may change places (`RingSurvives`).
- A rolling rotation moves every kept archive up by one and loses none if and only if no kept
  archive has a number that a higher one is about to take (`RollShifts`), which is also exactly when
  no rename lands on an archive that is still there (`RenamesAreClear`). The archives 2 and 3 break
  it: the older one is lost (`RollingLoses`). Archives without gaps, which is what the rotater itself
  leaves, always meet it (`RollingOverwritesNothing`).
- The anti-windup of both PID controllers bounds the integral sum by 200 times I if and only if the
  band P is at most 10000; with a wider band a lasting difference of one winds the sum up without
  a limit (`AntiWindup`).
- The product of the derivative filter stays within 32 bits on every run if and only if D is at most
  18 (`ProductFitsExactly`), while the range noted beside the code (src/job_tc.cpp:133) is the one for
  D = 30; and the filter divides by zero if and only if D is between -9 and -5
  (`DividesByZero`).
- A reload of the rules whose update fails is not undone, although the code announces that it falls back to the old
  configuration: the rollback is asked for only after a complete update, which is then committed. On a table with
  nothing pending a reload leaves nothing pending if and only if it succeeds (`Table.Reload`). The rollback itself
  would undo it (`Table.UpdateAndRollback`).
- Rollback after a complete update restores a category if and only if no change was pending before
  (`RollbackUndoes`, `RollbackUndoesOnlySettled`).
- A rule whose level name is unknown gets the level -1, and the bytes of its bitmap are then computed
  with a shift by 8 or 9; the bitmap agrees with the rule all the same (`BuildBitmap`).
- The frame check misses two wrong bits if and only if their distance is a multiple of 32767
  (`TwoErrorsAreDetected`), so never within the 255 bytes that it is computed over.
- The scan that ends a rest begins the next cycle without turning the valve on, which is left to the scan
  after it. With a rest time, the valve is on for the whole work time of every cycle but the first, and off for the
  rest, if and only if a second scan is made in the second in which the cycle begins; with just one it
  comes on a second late (`ScanServes`, `CycleTimes`). Without a rest time it stays on, and without
  a work time no scan turns it on before the cycles are done (`NoWorkTime`).
- The reflux valve stays on after its cycles also when the work time exceeds the cycle time: the rest
  time then wraps around in 16 bits, which delays the end but does not prevent it (`DemandIsMet`).

## Model

| member | source | states |
|---|---|---|
| `IniText.TrimSpec` | src/xini_file.h:69-101 | trimming removes a prefix and a suffix of trim characters, and what remains neither begins nor ends with one |
| `IniText.SpaceCodes` | src/xini_file.h:64 | the characters trimmed are those that isspace accepts: codes 9 to 13 and 32 |
| `IniText.XstrIcmp` | src/xini_file.h:161-184 | zero if and only if the C strings have equal length and at each place the same character or the two cases of one ASCII letter; otherwise the sign is the lexicographic order of the lowered strings, with characters compared signed or unsigned and the end of a string as zero |
| `IniText.FoldTells` | src/xini_file.h:161-184 | two strings have the same lowered form if and only if they are equal up to the first NUL and the case of ASCII letters, said without lowering |
| `IniText.FoldSpec` | src/xini_file.h:175-179 | the lowered form is the C string with each of A to Z, and nothing else, replaced by its other case |
| `IniText.FirstDifference` | src/xini_file.h:173-183 | the first place where two strings differ decides their order |
| `IniText.IcmpOrdersFolds` | src/xini_file.h:190-202 | either order is a strict total order on the lowered strings, so the ordered maps hold one entry per lowered name |
| `IniText.ReadBack` | src/xini_file.h:1397-1410 | lines that are single and trimmed, joined with newlines, are read back as the same lines |
| `IniModel.EqualAtSpec` | src/xini_file.h:533-537 | the split position is that of the first equals sign |
| `IniModel.FindSectSpec` | src/xini_file.h:1624-1646 | the section found is the first one whose name is equal up to case, and none is found when no name is |
| `IniModel.TailExactly` | src/xini_file.h:1183-1246 | what is taken from the end of a section is the one non-empty run of comments, with at most a final blank line, that follows a blank line or begins the section; nothing is taken when there is none |
| `IniShape.ParseIsWellFormed` | src/xini_file.h:1366-1454 | from any text: no two sections and no two keys of a section are equal up to case, one title line stands in every named section, and all names, keys and values are trimmed single lines |
| `IniShape.ReadKeepsShape` | src/xini_file.h:1397-1449 | reading any further lines keeps that shape |
| `IniMeaning.ReadMeansText` | src/xini_file.h:1397-1449 | after any lines, every lookup gives the first setting of the key under titles equal to the section, read off the lines alone; merged sections and moved comments change no lookup |
| `IniMeaning.ParseMeansText` | src/xini_file.h:1366-1454 | the same for a whole text: the first occurrence of a duplicate key wins |
| `IniMeaning.PushSectKeepsLookups` | src/xini_file.h:1659-1703 | a title line, new or of an existing section, changes no lookup |
| `IniMeaning.LookupIgnoresCase` | src/xini_file.h:1624-1646 | section names and keys that are equal up to case are looked up with the same answer |
| `IniMeaning.SettingIsFound` | src/xini_file.h:1142-1171 | in every file with distinct names and keys each setting is found under its section and key, written in any case |
| `IniMeaning.TitleKeepsOrder` | src/xini_file.h:1659-1703 | a title loses no comment or setting and keeps their order: the comments in front of it go behind what its section has, or to the front of the new section, and no other section changes |
| `IniMeaning.MergedIsParted` | src/xini_file.h:1659-1703 | a blank line parts what a section had from what joins it, and ends both |
| `IniMeaning.TextsAreParted` | src/xini_file.h:1373-1391 | a further text is read into the last section, behind a blank line, and the file before it is kept |
| `IniPrinted.PairPrinted` | src/xini_file.h:524-548 | a printed setting is read as the same key and value |
| `IniPrinted.TitlePrinted` | src/xini_file.h:841-864 | a printed title is read as the same name exactly when the name is plain, and otherwise as a shorter one |
| `IniPrinted.PrintedIsRead` | src/xini_file.h:1321-1340 | the lines a file prints are the lines that reading it sees |
| `IniNormal.NormalIsFixpoint` | src/xini_file.h:1321-1454 | for any trimmed lines: what is read from them prints the same lines if and only if they are normal, a property of the lines alone |
| `IniNormal.FitFollows` | src/xini_file.h:1397-1449 | lines that fit are all held by the reader, in order, though comments move to the next section |
| `IniNormal.ReadWeighs` | src/xini_file.h:1397-1449 | reading never adds a character to what is printed, and loses some for every line that does not fit |
| `IniTheorems.TextFixpoint` | src/xini_file.h:1321-1454 | for every text: reading and printing is the identity on it if and only if it consists of normal lines |
| `IniTheorems.PrintFixpoint` | src/xini_file.h:1321-1454 | for every file with distinct names and keys: printing, reading and printing again is the identity on its text if and only if its printed lines are normal |
| `IniTheorems.FileFixpoint` | src/xini_file.h:1321-1454 | for such a file with no setting printed as a title, also if its keys begin like comments: if and only if every name is plain and seen by a comparison, and the keys of a later section without a name are new to the section before |
| `IniTheorems.ParsedTextFixpoint` | src/xini_file.h:1321-1454 | for every text, what is printed after reading it is printed again after reading that if and only if every section name is plain |
| `IniTheorems.LookupsSurvive` | src/xini_file.h:896-918 | for every section and key, the lookup in the reloaded file equals the one in the dumped file |
| `IniTheorems.SwallowedName` | src/xini_file.h:852-854 | the text `[ [a] ]` gives a section name that is not plain |
| `IniNames.ShownNames` | src/xini_file.h:841-864 | the name that a printed title is read as compares equal to the name exactly when the name neither begins with an opening bracket nor ends with a closing one that a comparison sees; otherwise it is shorter |
| `IniReload.ReloadLosesComments` | src/xini_file.h:1321-1454 | when every section with settings is read under its own name and no setting is printed as a title, a reload loses exactly the settings whose keys begin with a semicolon or a number sign, and every other lookup is the same |
| `IniReload.ReloadKeepsLookups` | src/xini_file.h:1321-1454 | for every file whose names and keys are distinct up to case, with or without a section in front that has no name: all lookups are the same after a reload if and only if every setting is printed as a setting, and for every setting some section with the same one is read under its section's name |
| `IniReload.NamesDecide` | src/xini_file.h:1321-1454 | when the section before a later one without a name keeps its own, the second condition holds if and only if every section with settings keeps its name and the one without a name has settings only in front |
| `IniReload.NamesKeepHomes` | src/xini_file.h:1321-1454 | the names alone are enough in every file |
| `IniReload.RingSurvives` | src/xini_file.h:1321-1454 | but not necessary: in this file neither name with a setting is read as itself, and all lookups survive |
| `IniReload.UnreadableIsLost` | src/xini_file.h:524-548 | one setting that is printed as a comment or a title is enough for a lookup to change |
| `IniReload.SwallowedIsLost` | src/xini_file.h:841-864 | with settings without a section name only in front, one section with settings whose name does not stay is enough, too |
| `IniReload.NamelessIsLost` | src/xini_file.h:1321-1340 | and so are settings without a section name behind a section that keeps its name |
| `IniEdit.MadeSectFolds` | src/xini_file.h:1486-1493 | the section made for a name is listed under a name that compares equal exactly when the name stays |
| `IniEdit.MadePairFolds` | src/xini_file.h:947-953 | the setting made for a key is listed under a key that compares equal exactly when no comparison sees an equals sign in the key |
| `IniEdit.BracketsDisagree` | src/xini_file.h:1464-1493 | indexing by `[ [a] ]` files a section as `[a]` that is listed as `a` |
| `IniEdit.EqualsDisagree` | src/xini_file.h:930-953 | indexing by `a=b` files a setting under `a=b` that is listed as `a` with the value `b=` |
| `IniEdit.NameOfTitle` | src/xini_file.h:1460-1473 | indexing by a plain name in brackets is indexing by the name |
| `IniEdit.LineEndSpec` | src/xini_file.h:776-780 | an assigned value ends in front of its first line break |
| `IniEdit.IndexKeepsLookups` | src/xini_file.h:926-959 | whenever map and list agree afterwards, the two index operators keep the shape of a file and change no lookup but their own, which gives the old value, or that of the setting made if there was none |
| `IniEdit.AssignKeepsLookups` | src/xini_file.h:776-780 | an assignment likewise changes just its own lookup, to the first line of the value, trimmed |
| `IniEdit.EditedIsSound` | src/xini_file.h:1366-1496 | from a new file, after any sequence of texts read, sections and settings indexed and values assigned, each of which leaves map and list agreeing, no two sections and no two keys of a section are equal up to case |
| `IniEdit.EditedFilesSurvive` | src/xini_file.h:1321-1496 | such a file has the same lookups after a reload, and prints the same text, under exactly the conditions of `ReloadKeepsLookups`, `NamesDecide`, `PrintFixpoint` and `FileFixpoint` |
| `IniEdit.AssignedReadable` | src/xini_file.h:776-795 | an assignment leaves all settings printed as settings if and only if its own is, with its key and its new value |
| `IniEdit.ReadAsTitle` | src/xini_file.h:776-795 | the key `[a` with the value `b]` is printed as a title line |
| `IniEdit.RootlessLoses` | src/xini_file.h:1460-1496 | indexing `a` in a new file and assigning to `y` under the empty name gives a readable file whose names stay; after a reload `y` is found in `a` and no longer under the empty name |
| `IniFile.Section.FindKnode` | src/xini_file.h:1142-1171 | the map gives the node that the case-insensitive scan of the node list gives, or none when it gives none |
| `IniFile.Section.PushNode` | src/xini_file.h:1100-1130 | refuses exactly a setting whose key the scan finds; otherwise appends the node; map and list keep agreeing |
| `IniFile.Section.Index` | src/xini_file.h:926-959 | gives the node the scan finds; only when there is none, appends the one made of the key and an equals sign; map and list agree afterwards if and only if it was found or the key shows no equals sign |
| `IniFile.FiledKey` | src/xini_file.h:947-953 | a new setting filed under a key keeps map and list agreeing if and only if the key shows no equals sign |
| `IniFile.FiledName` | src/xini_file.h:1486-1493 | a new section filed under a name keeps them agreeing if and only if the name stays |
| `IniFile.KeyValue.SetValue` | src/xini_file.h:776-795 | the value becomes the first line of what is assigned, trimmed |
| `IniFile.Section.PopTailComment` | src/xini_file.h:1183-1246 | takes exactly the trailing comments, puts them before or after the given list, and leaves the rest of the section and its map agreeing |
| `IniFile.Section.Write` | src/xini_file.h:896-918 | writes the lines of the section's value |
| `IniFile.IniFile.FindSection` | src/xini_file.h:1624-1646 | the map gives the section that the case-insensitive scan of the section list gives |
| `IniFile.IniFile.EnterSection` | src/xini_file.h:1659-1703 | the section entered, the moved comments and the separating blank lines are those of the value; the invariant of lists and maps is kept |
| `IniFile.IniFile.ReadLine` | src/xini_file.h:1402-1446 | one line takes the value one step on |
| `IniFile.IniFile.ReadText` | src/xini_file.h:1366-1454 | reading a text behind any file gives the value of reading its lines; lists and maps agree afterwards |
| `IniFile.IniFile.Dump` | src/xini_file.h:1321-1340 | writes exactly the printed value and changes nothing |
| `IniFile.IniFile.Index` | src/xini_file.h:1460-1496 | gives the section that the scan finds for the normalized name; only when there is none, appends the one made of the name in brackets; lists and maps agree afterwards if and only if it was found or the name stays |
| `IniFile.IniFile.IndexKey` | src/xini_file.h:926-959 | the setting that the scan finds, or the one made; the file's value gains it only if there was none, and the section's map agrees afterwards if and only if it was found or the key shows no equals sign |
| `IniFile.IniFile.At` | src/xini_file.h:1460-1496 | section and key indexed together: the value of the file is the indexed one, the node returned stands at the place of its key, and all maps agree afterwards if and only if name and key agree |
| `IniFile.IniFile.SetNode` | src/xini_file.h:776-795 | an assignment through a node that the file holds changes that setting of the file's value and keeps all maps agreeing |
| `IniFile.IniFile.Set` | src/xini_file.h:776-795 | an assignment by names gives the assigned value of the file |
| `IniFile.FoundIsLookedUp` | src/xini_file.h:1142-1171 | the two map lookups together give the value that the lookup in the file's value gives |
| `HashTable.LinkFront` | zlog/zc_hashtable.c:222-227 | puts an entry at the front of its bucket with next and prev mutually inverse |
| `HashTable.Unlink` | zlog/zc_hashtable.c:262-272 | takes an entry out through its own links; all chains stay linked both ways |
| `HashTable.HashTable.FindEntry` | zlog/zc_hashtable.c:151-163 | the entry found holds the key and its value in the map; none is found exactly when the map has no such key |
| `HashTable.HashTable.Get` | zlog/zc_hashtable.c:165-177 | the value of the map, or nothing |
| `HashTable.HashTable.Put` | zlog/zc_hashtable.c:179-232 | the map with the key set, whether overwritten, inserted, or inserted after the table was doubled, which happens if and only if the key is new and the table holds more than 1.3 entries for each bucket |
| `HashTable.HashTable.Rehash` | zlog/zc_hashtable.c:114-149 | twice as many buckets, the same map, every entry in the bucket of its hash |
| `HashTable.HashTable.Remove` | zlog/zc_hashtable.c:234-278 | the map without the key; nothing changes when it has none |
| `HashTable.HashTable.Clean` | zlog/zc_hashtable.c:91-112 | the empty map |
| `HashTable.HashTable.Begin` | zlog/zc_hashtable.c:280-293 | the first entry of the iteration order, or NULL |
| `HashTable.HashTable.Next` | zlog/zc_hashtable.c:295-312 | the entry after the k-th one of the order, or NULL after the last |
| `HashTable.HashTable.Visit` | zlog/zc_hashtable.h:43-46 | the foreach macro terminates and meets the whole order |
| `HashTable.HashTable.OrderIsMap` | zlog/zc_hashtable.c:280-312 | in any reachable table the order has as many entries as the map has keys, meets every key exactly once, with its value |
| `ArrayList.ArrayList.Expand` | zlog/zc_arraylist.c:58-75 | at least doubles the array, keeps the contents, the new slots are NULL |
| `ArrayList.ArrayList.Set` | zlog/zc_arraylist.c:77-90 | the contents with the slot set, padded with NULLs up to it; in bounds for an index below twice the size |
| `ArrayList.ArrayList.Add` | zlog/zc_arraylist.c:92-95 | appends |
| `ArrayList.ArrayList.InsertInner` | zlog/zc_arraylist.c:98-116 | fills a NULL slot, or moves the rest up by one |
| `ArrayList.ArrayList.SortAdd` | zlog/zc_arraylist.c:118-132 | inserts before the first element that compares above the new one |
| `ArrayList.InsertedSorts` | zlog/zc_arraylist.c:118-132 | insertion keeps a sorted list sorted, for every weak order |
| `ArrayList.InsertedAdds` | zlog/zc_arraylist.c:118-132 | the elements afterwards are those before and the new one |
| `Rotater.Rotater.AddArchiveFiles` | zlog/rotater.c:181-230 | whatever order the directory is read in, the list holds the archives' numbers in ascending order |
| `Rotater.Rotater.RollFiles` | zlog/rotater.c:285-345 | unlinks and renames from the highest archive down, then moves the log to number 0 |
| `Rotater.Rotater.SeqFiles` | zlog/rotater.c:232-282 | unlinks all but the newest archives and moves the log to the next number |
| `Rotater.Rotater.Rotate` | zlog/rotater.c:427-466 | lists the archives and rotates the log into them |
| `Rotater.RollShifts` | zlog/rotater.c:285-345 | every kept archive ends one place up with its content, and the log at 0, if and only if no numbers clash |
| `Rotater.BeforeIsHalfway` | zlog/rotater.c:311-328 | without a clash, before every place the run holds the lower archives where they were and the higher ones one place up |
| `Rotater.RenamesAreClear` | zlog/rotater.c:311-343 | no rename of the run lands on an archive that is still there, other than itself, if and only if no numbers clash; the last one, of the log to number 0, never does |
| `Rotater.RollingLoses` | zlog/rotater.c:311-328 | rolling the archives 2 and 3 without a limit leaves 0 and 1, and the contents of 2 are lost |
| `Rotater.RollingOverwritesNothing` | zlog/rotater.c:311-328 | with archives numbered without a gap every rename takes a number that no archive has at that point |
| `Rotater.RollingHistory` | zlog/rotater.c:285-345 | starting with none, after k rotations with a limit m, archive i exists exactly for i < min(k, m) and holds the (i+1)-th most recent log; without a limit all k are kept |
| `Rotater.SequenceKeepsNewest` | zlog/rotater.c:232-282 | from any archives: the new number exceeds all others, exactly the newest ones survive unchanged, and at most m + 1 remain |
| `Rotater.SequenceHistory` | zlog/rotater.c:232-282 | starting with none, after k rotations the archives are exactly the newest m + 1, each under the number of its rotation |
| `LogBuffer.Buf.Create` | zlog/buf.c:87-138 | fails exactly for a size of zero, crossed limits or a mark that is too long; otherwise an empty buffer of the given size |
| `LogBuffer.Buf.Truncate` | zlog/buf.c:141-152 | overwrites the end of the text by the mark, or all of it by the beginning of a longer mark; what is in front of the mark is kept |
| `LogBuffer.Buf.Resize` | zlog/buf.c:160-205 | keeps the text, never exceeds the limit, and reports 1 exactly when the limit leaves less than was asked for |
| `LogBuffer.Buf.Restart` | zlog/buf.h:48-50 | begins an empty text in the same memory |
| `LogBuffer.Buf.Append` | zlog/buf.c:505-545 | the buffer holds the clipped form of all text ever appended: when text was lost, the beginning of all of it and then the mark; 1 is returned exactly when the text did not fit |
| `LogBuffer.Buf.AdjustAppend` | zlog/buf.c:548-647 | the same for text cut and padded to its widths |
| `LogBuffer.Buf.Vprintf` | zlog/buf.c:207-264 | the same for formatted text; a failing formatter changes nothing |
| `LogBuffer.Buf.PrintDec32` | zlog/buf.c:268-331 | the same for the decimal digits with zeros up to the width |
| `LogBuffer.Buf.PrintDec64` | zlog/buf.c:333-422 | the same for 64 bits |
| `LogBuffer.Buf.PrintHex` | zlog/buf.c:424-502 | the same for hexadecimal digits |
| `LogBuffer.ClipAppend` | zlog/buf.c:505-545 | the bounded-buffer law: clipping after each append equals clipping the whole ideal text once, at its first size_max - 1 bytes with the end overwritten by the mark |
| `LogBuffer.ClipSpec` | zlog/buf.c:141-152 | text that fits is kept; of text that does not, the first size_max - 1 - len bytes are kept and the mark of len bytes follows; of a mark that is longer than size_max - 1 the beginning is all there is |
| `LogBuffer.Buf.HoldsMarked` | zlog/buf.c:505-545 | the same of the bytes of every reachable buffer, against all text appended since the last restart |
| `LogBuffer.RunClips` | zlog/buf.c:505-545 | over every sequence of appends the buffer holds the whole text, or its beginning under the mark |
| `LogBuffer.ClipSaturates` | zlog/buf.c:513-527 | once text was lost, nothing appended changes the buffer |
| `LogBuffer.PaddedReadsBack` | zlog/buf.c:268-502 | a printed number reads back as the number, at every width, and has the larger of the two lengths |
| `LogBuffer.AdjustedHolds` | zlog/buf.c:548-580 | padding never loses a character that was to be taken, the length is the wider of the two, and the padding is made of zeros only on the left, of blanks otherwise |
| `LogBuffer.LaidPrefix` | zlog/buf.c:586-617 | the lengths recomputed at the limit write exactly a prefix of the padded text |
| `LogBuffer.WriteDigits` | zlog/buf.c:280-283 | the loop that writes backwards produces the digits of the number, within the temporary buffer |
| `LevelRules.BuildBitmap` | zlog/rule.c:668-690 | for every compare character and every level, unknown ones included, the bitmap has the bit of exactly the levels that the rule puts out |
| `LevelRules.SignsMean` | zlog/rule.c:967-997 | what is put out: with a star all levels, with a dot those from the rule's own on, with an equals sign it alone, with an exclamation mark all others; with any other sign none |
| `LevelRules.CacheIsExact` | zlog/category.h:34-35 | the early-skip test skips a level if and only if no rule in the category's fitted list, wastebin included, would put it out |
| `LevelRules.MatchesUnderscore` | zlog/rule.c:1012-1040 | a rule name with a closing underscore matches the stem and everything it is a prefix of, and nothing else |
| `LevelRules.MatchesExactly` | zlog/rule.c:1012-1040 | any other name but the star matches itself only |
| `LevelRules.MatchesIff` | zlog/rule.c:1012-1040 | for every name: a rule matches if and only if its category is the star, or the name, or a stem with an underscore such that the name is the stem or begins with both |
| `LevelRules.MatchingSpec` | zlog/category.c:74-84 | the rules fitted are exactly those that match |
| `LevelRules.MatchingInOrder` | zlog/category.c:74-84 | they are taken in the order of the configuration, each as often as it is there |
| `LevelRules.StarFitsAll` | zlog/category.c:74-105 | with a rule for the star, every category is fitted by it, and the fallback is not used |
| `LevelRules.WastebinSpec` | zlog/category.c:86-105 | the fallback is a rule for the category "!", and there is none only if no rule is one |
| `LevelRules.LastWastebin` | zlog/category.c:74-105 | of several such rules the last one is taken |
| `LevelRules.UnionBit` | zlog/category.c:49-55 | the or of the bitmaps has the bit of a level exactly if one of them has |
| `CategoryTable.Category.OverlapBitmap` | zlog/category.c:49-55 | every byte is or-ed with the rule's |
| `CategoryTable.Category.ObtainRules` | zlog/category.c:57-112 | on success the fitted rules and the or of their bitmaps; no rules after any failed allocation |
| `CategoryTable.Category.Create` | zlog/category.c:114-144 | a category with the rules that fit and nothing pending, or NULL, always for a name that is too long |
| `CategoryTable.Category.UpdateRules` | zlog/category.c:148-170 | rules and bitmap become the backup, and the new rules take their place or, on failure, none |
| `CategoryTable.Category.CommitRules` | zlog/category.c:174-187 | drops the backup |
| `CategoryTable.Category.RollbackRules` | zlog/category.c:192-217 | puts the backup back |
| `CategoryTable.RollbackUndoes` | zlog/category.c:192-217 | rollback undoes an update of a settled category, complete or failed |
| `CategoryTable.RollbackUndoesOnlySettled` | zlog/category.c:192-217 | and it undoes a complete update of no other category |
| `CategoryTable.Table.UpdateRules` | zlog/category_table.c:57-71 | updates the categories in iteration order up to the first that fails; the later ones are untouched |
| `CategoryTable.Table.CommitRules` | zlog/category_table.c:73-84 | commits every category |
| `CategoryTable.Table.RollbackRules` | zlog/category_table.c:86-97 | rolls every category back |
| `CategoryTable.Table.FetchCategory` | zlog/category_table.c:100-127 | gives the category of a name, or adds one with the rules that fit; all others keep what they know |
| `CategoryTable.Table.UpdateAndRollback` | zlog/category_table.c:57-97 | on a table with nothing pending, an update, complete or not, and a rollback leave everything as it was |
| `CategoryTable.Table.Reload` | zlog/zlog.c:258-284 | the rule part of a reload: a complete update is committed; one that stops is left there; from nothing pending, nothing is pending afterwards if and only if it succeeded, and then every category has the new rules |
| `CategoryTable.TableRollbackUndoes` | zlog/category_table.c:57-97 | with nothing pending, an update that succeeds or stops at any category, followed by a rollback, restores the rules and bitmap of every category exactly |
| `CategoryTable.TableCommitKeeps` | zlog/category_table.c:57-84 | a complete update and a commit leave every category with the new rules and no backup |
| `CategoryTable.SkipsExactly` | zlog/category.h:34-35 | in every category whose rules were obtained, the bitmap has the bit of a level if and only if one of its rules puts the level out |
| `Pid.Controller.Sample` | src/job_tc.cpp:17-167 | one call takes the sum and the two remembered values one step on, and gives the filtered value |
| `Pid.Controller.CalcTemperature` | src/job_tc.cpp:17-182 | the output is limited to the range of OHI and OLO, and lies in it if and only if the range is not empty |
| `Pid.Controller.CalcHumidity` | src/job_tc.cpp:484-654 | the same for the output centred at zero |
| `Pid.OutsideBand` | src/job_tc.cpp:52-91 | outside the band the control value is 10000 below the target and 0 above it, whatever the sum and the last values, and the sum is forgotten; so is the output without D |
| `Pid.WithoutBand` | src/job_tc.cpp:61-91 | without a band a difference turns the output off and forgets the sum |
| `Pid.OutputGrows` | src/job_tc.cpp:44-167 | without D, for any band and I, a larger difference never lowers the output, within the band and across its limits, from the same or a larger sum |
| `Pid.OutputIsProportional` | src/job_tc.cpp:44-64 | without I and D the output in the band is 5000 plus, rounded towards 0, 10000 times the part that the difference is of the band; 5000 without a difference |
| `Pid.DerivativePushes` | src/job_tc.cpp:120-133 | in the band the derivative adds twice D for each unit by which vn has changed |
| `Pid.FilterIsSteady` | src/job_tc.cpp:140-167 | for D a multiple of 5 a value that stays passes the filter unchanged but for the limits |
| `Pid.SumIsOfRecent` | src/job_tc.cpp:78-106 | on every run, with I and in the band, the sum is that of the differences whose vn was in range, since the last call without I or outside the band |
| `Pid.AntiWindup` | src/job_tc.cpp:44-106 | with fixed I >= 1, on every run whatever the inputs the sum stays strictly between -200 I and 200 I if and only if P is at most 10000 |
| `Pid.RunWindsUp` | src/job_tc.cpp:44-106 | with a wider band and a difference of one the sum equals the number of calls |
| `Pid.RunRange` | src/job_tc.cpp:101-133 | with D up to d, on every run vn is between -10000 and 20000 and wn within 20000 + 60000 d |
| `Pid.BoundIsReached` | src/job_tc.cpp:101-133 | two calls take wn to that bound |
| `Pid.ProductFitsExactly` | src/job_tc.cpp:140 | D times 100 times the last wn fits in 32 bits on every run if and only if D is at most 18 |
| `Pid.DividesByZero` | src/job_tc.cpp:141-142 | the divisor of the filter is zero exactly for D from -9 to -5 |
| `Pid.RunFits` | src/job_tc.cpp:17-182 | with P up to 10000, D from 0 to 18, a fixed I from 1 to 3276 and 16-bit registers, no difference, sum, product or quotient that a call computes on any run leaves 32 bits, from the difference of its inputs to the final limits |
| `Heater.MainHeater` | src/job_tc.cpp:192-231 | a division by zero exactly for an empty range; otherwise off at the target, at its limit below the band, in between scaled and limited |
| `Heater.DutyOutsideBand` | src/job_tc.cpp:216-225 | off at and above the target, at the upper limit below the band |
| `Heater.ScaledIsLinear` | src/job_tc.cpp:198 | the scaled duty lies on the line from 0 at an output of 100 HLO to 1000 at 100 HHI, rounded towards 0 |
| `Heater.DutyInBand` | src/job_tc.cpp:203-231 | in the band it is that, limited by OHI and OLO |
| `Heater.DutyGrows` | src/job_tc.cpp:192-231 | more control output never gives less heat, in spite of the rounding |
| `Heater.DutyFallsWithTemperature` | src/job_tc.cpp:192-231 | a higher temperature never gives more heat |
| `Smoothing.PidFilter` | src/jlib.cpp:416-435 | the window moves on by one in place, and the average is that of the new window |
| `Smoothing.WindowHolds` | src/jlib.cpp:416-435 | after any inputs the window holds the last ones, newest first |
| `Smoothing.AverageIsMean` | src/jlib.cpp:416-435 | the average is the sum of the window divided by its length, rounded towards zero |
| `Smoothing.AverageBetween` | src/jlib.cpp:416-435 | once the window is full, the average lies between any bounds of the last inputs |
| `Hysteresis.Latch.Cool` | src/job_tc.cpp:236-287 | counts towards on when the output is at or below the limit; puts out the latch only above the target temperature |
| `Hysteresis.Latch.Blower` | src/job_tc.cpp:292-345 | the same, strictly below the limit |
| `Hysteresis.RunKeepsInv` | src/job_tc.cpp:255-274 | over every sequence of calls the counter stays in 0..T+1, and the latch implies a positive counter |
| `Hysteresis.MinimumDwell` | src/job_tc.cpp:255-274 | any two switches of the latch are at least T + 1 calls apart, in every sequence of calls |
| `Hysteresis.ComesOn` | src/job_tc.cpp:312-332 | asked for without a break, the latch comes on in call T + 1 exactly |
| `Hysteresis.GoesOff` | src/job_tc.cpp:312-332 | and goes off exactly T + 1 calls after it is no longer asked for, so the minimum is reached |
| `Crc.CrcChkValue` | src/jlib.cpp:22-42 | the nested loops compute the check, bytewise |
| `Crc.Seal` | src/jincubator.cpp:8537-8538 | after the check is copied behind the frame, low byte first, the whole checks to zero |
| `Crc.CheckOfExample` | src/jlib.cpp:22-42 | the check of the bytes 2 and 7 is 0x1241, the example of the Modbus serial line guide, and that of no bytes is 0xFFFF |
| `Crc.SealedChecksToZero` | src/jincubator.cpp:8537-8538 | two bytes behind a frame make it check to zero if and only if they are its check, low byte first |
| `Crc.DetectedExactly` | src/jlib.cpp:22-42 | an error pattern is detected if and only if its own check, started at zero, is not zero, whatever the frame |
| `Crc.BurstsAreDetected` | src/jlib.cpp:22-42 | every burst of up to 16 bits, wherever it begins, changes the check |
| `Crc.AdjacentBytesAreDetected` | src/jlib.cpp:22-42 | frames of equal length that differ in one byte, or in two adjacent ones, have different checks |
| `Crc.OddErrorsAreDetected` | src/jlib.cpp:22-42 | an odd number of wrong bits changes the check |
| `BitErrors.OrderOfX` | src/jlib.cpp:22-42 | shifting the polynomial 1 through the check gives 1 again exactly after every multiple of 32767 shifts |
| `BitErrors.FlipEchoes` | src/jlib.cpp:22-42 | a wrong bit changes the check by the shifts that follow it, whatever the frame |
| `BitErrors.TwoErrorsAreDetected` | src/jlib.cpp:22-42 | two wrong bits leave the check of a frame of any length unchanged if and only if their distance is a multiple of 32767 |
| `BitErrors.ShortFramesDetectTwo` | src/jlib.cpp:22-42 | in a frame of up to 255 bytes, the length that the check is computed over, two wrong bits always change it |
| `ByteOrder.Ba` | src/jlib.cpp:66-85 | exchanges the bytes of every pair in place, or refuses an odd or empty length |
| `ByteOrder.Dcba` | src/jlib.cpp:264-288 | reverses every group of four in place, or refuses any other length |
| `ByteOrder.ReversedTwice` | src/jlib.cpp:66-288 | exchanging twice is doing nothing |
| `ByteOrder.RegisterFile.SetInt` | src/jincubator.cpp:124-129 | the value is stored over two registers, which then read as that value; no other byte changes |
| `ByteOrder.RegisterFile.GetInt` | src/jincubator.cpp:76-83 | reads the value stored there |
| `ByteOrder.RegisterFile.SetUval` | src/jincubator.cpp:96-99 | the same for one register |
| `ByteOrder.RegisterFile.GetUval` | src/jincubator.cpp:46-49 | reads it |
| `ByteOrder.LongIsTwoRegisters` | src/jincubator.cpp:76-129 | the 32-bit view of two registers is the first one above the second one |
| `ByteOrder.HighByteFirst` | src/jincubator.cpp:46-83 | a register is 256 times its first byte plus its second one, and two registers are 65536 times the first plus the second |
| `Damper.NeverBothMotors` | src/jincubator.cpp:493-568 | in every interleaving of single register writes, timer ticks and inputs the motors are never both on and the position stays within its bounds |
| `Damper.TickOnlyStops` | src/jincubator.cpp:7393-7491 | a tick turns no motor on and keeps the position within its bounds |
| `Damper.OpeningTravel` | src/jincubator.cpp:7400-7441 | from rest, n opening ticks give the position min(MAX, start + n / (T + 1)) |
| `Damper.ClosingTravel` | src/jincubator.cpp:7451-7490 | symmetrically max(MIN, start - n / (T + 1)) |
| `Damper.TickMirrors` | src/jincubator.cpp:7393-7491 | between the limit switches the two halves of the timer are mirror images |
| `Damper.ReversalTravel` | src/jincubator.cpp:7400-7441 | opening right after a movement the other way, the first step takes as much longer as was left of that, and then the travel is as from rest |
| `Damper.SwitchesStop` | src/jincubator.cpp:7400-7490 | a limit switch stops its motor and sets the position to its end; with both, the lower one is the last |
| `Damper.Controller.TimerCallback` | src/jincubator.cpp:7393-7491 | the timer's damper part computes the tick |
| `Damper.Controller.ControlOpenDamper` | src/jincubator.cpp:493-506 | run alone, it makes exactly the single steps of the interleaving model |
| `Damper.Controller.ControlCloseDamper` | src/jincubator.cpp:511-541 | the same |
| `Damper.Controller.ControlDamper` | src/jincubator.cpp:546-568 | run alone, it makes exactly the single steps from the place where it enters |
| `Damper.DamperCall` | src/jincubator.cpp:546-568 | control_damper enters one of the two functions at its beginning or none; none in test mode, and the opening one, to switch off, with the fan stopped |
| `Damper.CallEffect` | src/jincubator.cpp:493-568 | what a call leaves with no timer in between: the motor asked for runs as asked unless its switch is reached or the schedule wants no further closing, the other one is off unless that switch is reached, and nothing else changes |
| `Reflux.RunKeepsInv` | src/jincubator.cpp:5399-5594 | with a tick between any two tests and writes of a scan, or of the part that stops the incubator (lines 10033-10043), and any inputs at each: phases stay in 0..2, hot and cold are never both active, and the cycle never exceeds the largest ZQC read so far |
| `Reflux.StepLowers` | src/jincubator.cpp:5424-5481 | under demand no single test or write adds to the measure of cycles, phase and countdown; one that ends a countdown takes something off, and so does one that ends what a scan still owes |
| `Reflux.TickLowers` | src/jincubator.cpp:7611-7625 | nor does a tick, wherever it comes, and it takes something off while a countdown runs |
| `Reflux.DemandIsMet` | src/jincubator.cpp:5399-5594 | under sustained demand all cycles are done after as many rounds, each a whole scan and then a tick, as the measure says, and after one more the valve is on, wherever in the scans the ticks come |
| `Reflux.DoneStays` | src/jincubator.cpp:5399-5594 | from then on all stays done, and a valve that is on stays on, for good |
| `Reflux.ObservedRuns` | src/jincubator.cpp:5399-5594 | counting the rounds does not change the run |
| `Reflux.ScanChooses` | src/jincubator.cpp:5399-5594 | from every state a whole scan sets the water by its side and resets the other side; disabled it does neither |
| `Reflux.ScanTurnsOff` | src/jincubator.cpp:5399-5594 | disabled, or without demand and delay, a whole scan turns the valve off; while the delay runs it leaves it |
| `Reflux.ScanRegulates` | src/jincubator.cpp:5399-5594 | from its day on the water is cooled, before it is heated: past the setting a scan turns the valve off and ends the phase, short of it the scan turns it on while work time is left and when the cycles are done; the water is chosen by the day |
| `Reflux.ScanServes` | src/jincubator.cpp:5419-5495 | with demand and no delay, from every state: on if work time is left or the cycles are done, off if the rest is not over, and as it was if the rest is over and the next cycle begins |
| `Reflux.ValveAfterScan` | src/jincubator.cpp:5419-5495 | so, in every state the runs reach, after a whole scan the valve is on if the cycles are done or work time is left in a cycle that has not just begun, and off while a rest is left |
| `Reflux.ValveReasons` | src/jincubator.cpp:5399-5594 | wherever the timer comes, the valve is turned on only behind a test that found work time left or the cycles done, and off only behind one that found the rest running, the channel disabled or no demand; in test mode or with the alarm no step changes it, and with the fan stopped none turns it on |
| `Reflux.CycleTimes` | src/jincubator.cpp:5399-5594 | under sustained demand, for any number of cycles and of scans in each second: which cycle and which second of it each second of the run is, and where valve and registers stand then: on for the work time, off for the rest, the on side a second late in a later cycle that begins in a second with one scan |
| `Reflux.CyclesEnd` | src/jincubator.cpp:5399-5594 | from the second after the last cycle has begun the valve is on for good |
| `Reflux.CycleLasts` | src/jincubator.cpp:5456-5457 | work and rest together take the cycle time, or 65536 seconds longer when the work time exceeds it |
| `Reflux.NoWorkTime` | src/jincubator.cpp:5419-5495 | without a work time no scan turns the valve on before the cycles are done |
| `Reflux.HaltResets` | src/jincubator.cpp:10033-10043 | stopping the incubator ends both phases and starts a delay of 30 seconds |
| `Reflux.DelayHolds` | src/jincubator.cpp:5399-5428 | for as many seconds as the delay says, with any number of scans in each, no scan of an enabled channel touches the valve |
| `Reflux.Channel.Serve` | src/jincubator.cpp:5419-5495 | the part of a scan behind the delay, run alone, makes exactly the single steps to their end |
| `Reflux.Channel.ScanOnce` | src/jincubator.cpp:5399-5594 | so does the whole scan |
| `Reflux.Channel.CountDown` | src/jincubator.cpp:7611-7625 | one second of the timer |
| `Reflux.Channel.ControlCool` | src/jincubator.cpp:343-363 | the valve is not written in test mode or with the sensor alarm, and is off with the fan stopped |

## Left out

- `IniFile.Section.Index`: not for a blank key or one that begins with an equals sign, for which the source asserts.
- `HashTable.HashTable.Put`: allocation failure is not modelled here, nor are the callbacks that free keys and values; keys are compared by equality of values.
- `LogBuffer.Buf.Append`: allocation failure and the size_t range are not modelled, for all operations of the buffer.
- `LogBuffer.Buf.PrintDec32`: a negative width, which the comparison with an unsigned length would read as huge, is not passed; all three printers.
- `LogBuffer.Buf.Vprintf`: the formatter is one text or a failure; that it fails in the second of two calls only is not modelled.
- `ArrayList.ArrayList.Set`: not for an index of twice the size or more, which the source writes out of bounds.
- `Smoothing.PidFilter`: not for a length of 0, for which the byte counter wraps around and the average divides by zero.
- `Rotater.Rotater.Rotate`: unlink and rename are taken to succeed, and the patterns of archive names are reduced to distinct numbers.
- `Pid.Controller.Sample`: the registers are given as C integers after their scaling by ten; the conversion through double is not modelled, and 32 bits are the matter of RunFits.
- `Damper.Controller.TimerCallback`: the registers of one damper are kept as one record; their place in shared memory is the matter of ByteOrder.
- The dirty flag, the typed accessors of INI values, the BOM and the file I/O of load and dump.
- Level names and formats of rules, their outputs, and the overriding of the cached bitmap by level switches.
- The rest of the reload of a configuration: its file, its formats and the freeing of the old one.
- Sensor conversion and duty timing in floating point, and the spray valve, whose branch tests a constant.
- `Reflux.Channel.ScanOnce`: the tests of one call of the valve function and its write are one step, and so are the two reads of a comparison.
- Reflux channels 2 to 4; channel 4 turns on valve 1 in its cold branch.
- Serial ports, threads, locks, signals, shared memory and the updater.
