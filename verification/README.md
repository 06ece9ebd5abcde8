# A verified model of the LDC driver's algorithms

This project models six pieces of LDC's driver in Dafny and proves what they
guarantee over all inputs and all runs. `dafny verify dfyconfig.toml` checks it.

| part | files | main results |
|---|---|---|
| IR-to-object cache | `CacheNames`, `CacheProtocol`, `CacheSafety`, `CacheRuns`, `CacheConditions`, `CacheSteps`, `CacheHazards`, `CacheSession`, `CacheKey` | entries are whole in every reachable state, cache inodes never change, recovered outputs agree with recompilation, what provides the conditions for this, and that they are needed |
| DFLAGS tokenizer | `Tokenizer`, `TokenizerRoundTrip`, `TokenizerWords` | the in-place algorithm refines a pure one; quoting round trip; what unquoted text and backslashes mean |
| LDMD translation and hand-over | `Translate`, `OptionTable`, `PassThrough`, `CheckFlags`, `FlagValues`, `Identifiers`, `CommandLine`, `LongRun`, `ResponseFile`, `Expansion`, `ResponseExpand` | the list translation, the option table in its own spelling, exactly when check switches and debug and version identifiers keep their meaning, exactly when `-run` and `--run` arguments arrive untouched, response files are uniquely decodable |
| internal archiver | `ArchiveMerge`, `ArchiveProperties`, `ArchiveNames`, `Archiver` | which entry a path replaces and under which name, merge by occurrence rank, conservation, idempotence, no blank member |
| linker and cc switches | `UserSwitches` | order-preserving merge, and exactly when it is complete |
| CodeGenerator | `CodeGenerator`, `CodeGeneratorRuns` | what is written, freed and fired over every run |
| shared | `Sequences`, `Arguments` | facts about concatenation; argument lists and their split at `-run` |

## How the cache is modelled

The file system maps names to inodes or symbolic links and inodes to contents.
Any number of processes take interleaved steps, each a single system call of
`writeModule`, `cacheObjectFile` or `recoverObjectFile`; files are copied chunk
by chunk, rename is one step. A process may fail or die between any two steps,
and the pruner may delete an entry or a temporary file at any time
(`driver/cache_pruning.d` deletes both). Hashing and code generation are left
uninterpreted. That equal keys mean equal object code is an explicit hypothesis
(`KeySound`), because the key writes arguments without a separator
(`CacheKey.KeyJoins`).

Assumptions about the surroundings: no two live processes share an output path;
opening a file for writing, as `driver/toobj.cpp:77` and a copying recovery do,
follows a link and truncates an existing file in place; a hit's removal of the
output may fail, since its result is not looked at (`driver/cache.cpp:428`).

The promise that entries are always whole is not unconditional. Two kinds of step
need a guard. Opening an output for writing must not reach a cache file through a
hard or symbolic link left by an earlier recovery, and a temporary name must not be
held by another live process.

- For the invariant of the proofs the guards are exact: a step keeps it if and only
  if it is guarded (`CacheConditions.GuardsExact`).
- For the entries themselves, an opened output leaves them whole if and only if it
  does not lead to a present entry (`CacheConditions.OpenBreaksExactly`). The
  invariant asks for more here: it also protects inodes of pruned entries that
  outputs and readers still share. A temporary name may be drawn if and only if no
  guarded run from there can spoil an entry (`CacheConditions.TempGuardExact`).
- A recovery needs no guard at all, because it unlinks its output first
  (`CacheConditions.RecoveriesFreeze`), unless that removal fails. With copying
  retrieval only, no output needs one (`CacheConditions.CopyModeSafe`). Temporary
  names need none if the pruner spares those in use, which the source's pruner does
  not; both results are proved with either.

`CacheHazards` gives a run from an intact cache for each failure.

## How arguments reach LDC

LDMD expands `@name` arguments of the user (`driver/response.cpp`), inserts DFLAGS,
translates, and hands the list over directly or by a response file. LDC expands
`@file` arguments of its whole list, inserts the config file's switches and expands
again (`driver/main.cpp:1111`, `driver/main.cpp:282-285`); neither expansion stops at
`-run`. That expansion is LLVM's: an argument that names no file stays, files may
name files, and a file that names itself stops it with an error that LDC ignores.
Assumptions: neither LDMD's nor LDC's own name starts with `@`, and files do not
change between the two expansions.

## Where the source is followed against its documentation

- The tokenizer of response files that LDC itself uses (LLVM's GNU one, chosen at
  `driver/args.cpp:70`) drops empty arguments, so
  LDC sees the same arguments with and without a response file exactly when none
  is empty (`ResponseFile.ReadBack`). Readers that keep empty arguments always do.
- LDMD recognises only `-run`, while LDC also accepts `--run`; after `--run` LDMD
  still translates the program's own arguments. They arrive as they were exactly if
  each is one that LDMD hands on (`LongRun.LongRunArrivesExactly`).
- A `@file` behind a `-run` in DFLAGS is expanded by LDC although it is an argument of
  the program (`CommandLine.ReferenceAfterRun`).
- A bare `-check=<kind>` means on.
- DMD keeps what `-boundscheck` and `-noboundscheck` say apart from what `-check` says
  about bounds, and lets `-check` win (`dmd/mars.d:866-890`, `dmd/mars.d:1707-1731`,
  `dmd/main.d:1243-1247`). LDMD turns both into LDC's one `-boundscheck`, of which the
  last wins. So `-check=bounds=on -boundscheck=off` means something else to LDC
  (`CheckFlags.BoundsDiffer`), and `CheckFlags.ChecksPreserved` says exactly when the
  two agree.
- LDC splits the values of `-d-debug` and `-d-version` at commas and takes an empty
  debug identifier for a plain `-d-debug`; DMD rejects both (`Identifiers.CommaDiffers`,
  `Identifiers.EmptyDiffers`). Where DMD accepts, the meaning is preserved.
- A member of an archive is named by the last component of its path as LLVM sees it,
  which for a path of two slashes and a name is all of it (`ArchiveNames.MemberNames`).
- A bare `-verrors` is read past its end by the source; the model gives it the
  outcome `Undefined` and claims nothing more.

## Model

| member | source | states |
|---|---|---|
| `CacheNames.PathInjective` | driver/cache.cpp:211-217 | distinct cache names are distinct paths: entries, temporary files and outputs never collide |
| `CacheNames.PrunerFindsEntries` | driver/cache_pruning.d:107-110 | the pruner's pattern matches exactly the names the compiler gives to entries |
| `CacheNames.PrunerFindsTemps` | driver/cache_pruning.d:112-113 | and its other pattern exactly the names of temporary files |
| `CacheSafety.StepKeeps` | driver/cache.cpp:350-506 | every guarded step of any process, the pruner or a crash keeps the cache invariant |
| `CacheSafety.ChunkKeeps` | driver/cache.cpp:403-409 | writing part of a file disturbs neither the cache nor another process |
| `CacheSafety.RenameKeeps` | driver/cache.cpp:412-419 | the rename publishes a whole object, or fails fatally if the temporary file is gone |
| `CacheSafety.LinkKeeps` | driver/cache.cpp:442-481 | hard and symbolic links to an entry keep the invariant |
| `CacheSafety.PruneKeeps` | driver/cache_pruning.d:107-113 | deleting any entry or temporary file at any time keeps the invariant |
| `CacheSteps.PruneDeletesEntry` | driver/cache_pruning.d:143-191 | at any time an entry can be deleted: it is gone, and every other name, all contents and all processes are as before |
| `CacheSteps.PruneDeletesTemp` | driver/cache_pruning.d:127-139 | the same for a temporary file |
| `CacheSteps.PruneInBetween` | driver/cache.cpp:350-506 | over runs: after a prune, until a process of that key renames, each lookup of the key misses and each copy, hard link and touch stops fatally, all files unchanged |
| `CacheSteps.RemoveDeletes` | driver/cache.cpp:427-428 | a removal that works takes away the output and nothing else |
| `CacheSteps.LinkLeads` | driver/cache.cpp:442-481 | a hard link shares the entry's file, the other links name the entry; through either one reads what the entry is |
| `CacheSteps.FailAndDie` | driver/cache.cpp:383-419 | a failure is fatal, a death final, and neither touches a file |
| `CacheSteps.StoppedStays` | driver/cache.cpp:431-502 | a process that stopped takes no further step |
| `CacheSteps.NeverStuck` | driver/cache.cpp:350-506 | in every state of a guarded run, a process that has not stopped can go on |
| `CacheRuns.RunKeeps` | driver/cache.cpp:332-506 | the invariant holds along every guarded run |
| `CacheRuns.EntriesAlwaysComplete` | driver/cache.cpp:350-420 | in every reachable state each existing entry is a whole object for its hash |
| `CacheRuns.RunFreezes` | driver/cache.cpp:422-506 | an inode that is or was an entry never changes again |
| `CacheConditions.RecoveriesFreeze` | driver/cache.cpp:427-481 | over every run of recoveries in any mix of modes, interleaved with all else: as each unlinks its output first, copying needs no guard, cache inodes never change and entries stay whole |
| `CacheConditions.UnlinkRunGuarded` | driver/cache.cpp:427-441 | successful removals establish the guard of every later copy, across other processes' steps |
| `CacheConditions.TempsStayApart` | driver/cache.cpp:391-397 | a temporary name just made has one holder: because the pruner spared names in use, or because nobody draws one |
| `CacheRuns.CompletedOutputsAgree` | driver/toobj.cpp:325-331 | a completed process leaves its own object code, by recovery or codegen; a symbolic link may dangle but never reads as something else |
| `CacheRuns.HitsAgree` | driver/cache.cpp:350-368 | a lookup that hits has found exactly the module's object code |
| `CacheRuns.LostEntryIsFatal` | driver/cache.cpp:431-502 | if the entry was pruned meanwhile, copy, hard link and touch stop fatally and change no file |
| `CacheConditions.CopyModeSafe` | driver/cache.cpp:431-441 | with copying retrieval only, entries stay whole although outputs are truncated in place and removals may fail |
| `CacheConditions.OpenBreaksExactly` | driver/toobj.cpp:76-82 | opening an output leaves entries whole if and only if it does not lead to one |
| `CacheConditions.OpenKeepsInvExactly` | driver/toobj.cpp:76-82 | the same for the invariant, which also covers inodes of pruned entries |
| `CacheConditions.GuardsExact` | driver/cache.cpp:391-441 | a step keeps the invariant if and only if it is guarded |
| `CacheConditions.SharedTempHarms` | driver/cache.cpp:391-419 | from every state: if a live process holds the name drawn, however far it is, a guarded run leads to an entry that is not whole |
| `CacheConditions.TempGuardExact` | driver/cache.cpp:391-419 | a temporary name may be drawn if and only if no guarded run from there can spoil an entry |
| `CacheHazards.HardLinkThenCodegen` | driver/toobj.cpp:324-331 | a run: recover by hard link, then compile something else onto the output; the entry is emptied |
| `CacheHazards.CopyWithoutUnlink` | driver/cache.cpp:427-441 | a run: the removal fails and the copying recovery truncates the file it reads |
| `CacheHazards.TempNameReused` | driver/cache.cpp:391-419 | a run: a pruned temporary name is drawn again by another process and an empty entry appears |
| `CacheSession.Session.RecoverObjectFile` | driver/cache.cpp:422-506 | undisturbed, recovery in any mode completes |
| `CacheSession.Session.WriteObjectFile` | driver/toobj.cpp:269-273 | undisturbed, codegen writes the whole object |
| `CacheSession.Session.CacheObjectFile` | driver/cache.cpp:370-420 | undisturbed, storing completes and the entry exists |
| `CacheSession.Session.WriteModule` | driver/toobj.cpp:305-331 | undisturbed: a hit exactly if the entry existed, the output holds the object code, and the next lookup hits |
| `CacheKey.IsShort` | driver/cache.cpp:263-268 | the length scan tells options of fewer than eleven characters |
| `CacheKey.Skips` | driver/cache.cpp:238-288 | the character tests decide exactly the set of ignored arguments |
| `CacheKey.OutputRelevantArgs` | driver/cache.cpp:225-298 | the key text is the concatenation of the relevant arguments before the first -run |
| `CacheKey.KeyIgnores` | driver/cache.cpp:233-288 | inserting an ignored argument anywhere, or renaming the executable, does not change the key |
| `CacheKey.KeyStopsAtRun` | driver/cache.cpp:290-293 | nothing after -run changes the key |
| `CacheKey.KeyJoins` | driver/cache.cpp:296-297 | the key cannot tell one argument from its two halves |
| `CacheKey.KeyNotInjective` | driver/cache.cpp:296-298 | two different argument lists with the same key text |
| `CacheKey.AddsNothing` | driver/cache.cpp:239-288 | which arguments add nothing to the key, in their own spelling |
| `CacheKey.CapitalsAddNothing` | driver/cache.cpp:255-259 | options starting with these capitals add nothing |
| `CacheKey.AddsItself` | driver/cache.cpp:231-298 | every other argument adds itself |
| `Tokenizer.ReadToken` | driver/ldmd.cpp:332-376 | one token is unescaped in place as the pure scanner says, touching nothing before it |
| `Tokenizer.AppendEnvVar` | driver/ldmd.cpp:314-379 | the C strings at the returned offsets of the final buffer are the pure tokenizer's tokens |
| `TokenizerRoundTrip.TokenizeJoin` | driver/ldmd.cpp:314-379 | quoting, joining with blanks and tokenizing gives back every argument list |
| `TokenizerRoundTrip.PassThroughEnvironment` | driver/ldmd.cpp:314-379 | the same through the in-place algorithm, for all NUL-free arguments |
| `TokenizerWords.TokenizeWords` | driver/ldmd.cpp:322-360 | words without space, tab or quote come out as they are, backslashes included, whatever spaces and tabs stand around them |
| `TokenizerWords.BackslashRule` | driver/ldmd.cpp:332-350 | 2n backslashes before a quote are n and toggle quoting, 2n + 1 are n and a literal quote |
| `TokenizerWords.QuotedPart` | driver/ldmd.cpp:332-360 | a word with a quoted part is one token that keeps the part's spaces and tabs |
| `TokenizerWords.LiteralQuote` | driver/ldmd.cpp:332-350 | a token that ends in a literal quote |
| `Translate.TranslateArgs` | driver/ldmd.cpp:412-775 | LDC path, -ldmd, the translations before the first -run, then the rest verbatim; the first terminating argument decides otherwise |
| `OptionTable.Files` | driver/ldmd.cpp:760-774 | a file ending in .exe, in any case, becomes -of=file |
| `OptionTable.OtherFiles` | driver/ldmd.cpp:760-774 | every other file stays |
| `OptionTable.Vdmd` | driver/ldmd.cpp:423-425 | -vdmd is dropped |
| `OptionTable.Color` | driver/ldmd.cpp:492-509 | -color with and without a value, every value |
| `OptionTable.CodeGeneration` | driver/ldmd.cpp:514-580 | -visibility=x, -edition, -dylib, -fIBT, -arm, -m32mscoff, -profile and what they become, every payload |
| `OptionTable.DebugInformation` | driver/ldmd.cpp:548-559 | -gdwarf=x, -gf, -gs and the error of -gt |
| `OptionTable.OutputOptions` | driver/ldmd.cpp:584-697 | -vasm, -vtls, -inline, -lib, -noboundscheck, -nothrow |
| `OptionTable.Targets` | driver/ldmd.cpp:611-648 | -target=x, and the errors of -os=x and -o |
| `OptionTable.Cpus` | driver/ldmd.cpp:613-628 | -mcpu= with every value |
| `OptionTable.Errors` | driver/ldmd.cpp:595-607 | -verrors= with every value |
| `OptionTable.BareErrors` | driver/ldmd.cpp:595-607 | a bare -verrors has no defined outcome |
| `OptionTable.Dropped` | driver/ldmd.cpp:533-686 | the options that LDC is not told |
| `OptionTable.Conditional` | driver/ldmd.cpp:703-721 | -debug, -debug=x and -version=x, and that malformed ones stay |
| `OptionTable.Hidden` | driver/ldmd.cpp:722-725 | --b, --c, --f, --r, --x and --y |
| `OptionTable.Help` | driver/ldmd.cpp:726-743 | --help, -h, --version and -man end LDMD successfully |
| `OptionTable.Verbatim` | driver/ldmd.cpp:747-750 | -Cx becomes -x, and a dash alone stays |
| `OptionTable.PositionIndependent` | driver/ldmd.cpp:528-532 | -fPIC once and twice |
| `OptionTable.Checks` | driver/ldmd.cpp:453-488 | the six -check kinds by DMD's and LDC's names, bare, on and off |
| `OptionTable.AllChecks` | driver/ldmd.cpp:439-452 | -check=on and -check=off |
| `Translate.OnlyRunIsRest` | driver/ldmd.cpp:744-746 | exactly -run ends the translation |
| `Translate.OnlyPicIsPic` | driver/ldmd.cpp:528-532 | exactly -fPIC has a translation that depends on what came before |
| `Translate.PiecesAppend` | driver/ldmd.cpp:420-775 | parts of a command line translate independently unless both hold -fPIC |
| `Translate.RepeatedPic` | driver/ldmd.cpp:528-532 | further -fPIC arguments change nothing |
| `CheckFlags.ParseValue` | driver/cl_helpers.h:136-149 | the accepted boolean spellings, and an error for all others |
| `CheckFlags.ParseFlag` | driver/cl_helpers.h:109-127 | enable and disable with an optional boolean: on exactly if the two agree |
| `CheckFlags.ApplyFlag` | driver/cl_options.cpp:490-523 | LDC reads -enable-x and -disable-x as setting the one flag x |
| `FlagValues.Values` | driver/cl_helpers.h:109-149 | for each flag: which setting it sets, that true values change nothing, false values turn enable into disable and back, and all others are errors |
| `FlagValues.Levels` | driver/cl_options.cpp:495-501 | -boundscheck has three levels and no other |
| `FlagValues.TwoDashes` | driver/cl_options.cpp:490-523 | two dashes are read like one |
| `CheckFlags.KindTranslates` | driver/ldmd.cpp:453-488 | -check=kind, =on and =off are translated by kind, a bare kind meaning on |
| `CheckFlags.StartsWithB` | driver/ldmd.cpp:751-754 | -boundscheck and every other option starting with b passes through |
| `CheckFlags.NoBoundsTranslates` | driver/ldmd.cpp:690-692 | -noboundscheck becomes -boundscheck=off |
| `CheckFlags.ContractsSetBoth` | driver/cl_options.cpp:525-530 | -enable-contracts and -disable-contracts set both contract settings |
| `CheckFlags.SwitchTranslates` | driver/ldmd.cpp:435-489 | what LDC makes of the translation of each check switch |
| `CheckFlags.WordsTranslate` | driver/ldmd.cpp:435-489 | the same for every sequence of them among harmless arguments |
| `CheckFlags.BoundsOf` | dmd/mars.d:866-890 | DMD's two parameters hold the last word of either kind, LDC's one setting the last word of both |
| `CheckFlags.ChecksPreserved` | dmd/main.d:1243-1247 | LDC's settings are DMD's but for bounds checks, and those too if and only if no later -boundscheck contradicts the last -check of bounds |
| `CheckFlags.BoundsDiffer` | dmd/mars.d:1707-1731 | an input on which they differ: -check=bounds=on -boundscheck=off |
| `CheckFlags.FilesAreHarmless` | driver/ldmd.cpp:760-774 | source files and other plain arguments touch no check setting |
| `CheckFlags.CommandLinesAgree` | driver/ldmd.cpp:412-489 | the same if and only if, over whole command lines with source files and other arguments, from LDMD's arguments to LDC's settings |
| `Identifiers.IdentifiersPreserved` | driver/ldmd.cpp:703-721 | for every sequence of debug and version switches: LDC ends with DMD's identifiers if DMD accepts them, and the two agree otherwise if and only if LDC rejects one too |
| `Identifiers.SwitchRead` | driver/cl_options.cpp:399-425 | when LDC rejects a switch, and that it reads it like DMD where DMD accepts |
| `Identifiers.LdcReads` | driver/main.cpp:157-168 | -d-debug and -d-version in their own spelling |
| `Identifiers.CommaDiffers` | dmd/mars.d:1789-1804 | an input: -version=a,b is an error to DMD and two identifiers to LDC |
| `Identifiers.EmptyDiffers` | dmd/mars.d:1770-1788 | an input: -debug= is an error to DMD and -debug to LDC |
| `CommandLine.FindRunIndex` | driver/ldmd.cpp:401-407 | the first run argument behind argv[0], or none |
| `CommandLine.InsertDflags` | driver/ldmd.cpp:397-410 | DFLAGS are inserted before a first -run, else at the end |
| `CommandLine.ConfigFile.ExtendCommandLine` | driver/configfile.cpp:236-250 | switches behind argv[0], post-switches before a first run argument, else at the end |
| `CommandLine.ExtendedKeepsRun` | driver/configfile.cpp:236-250 | config insertion never moves into arguments from a run argument on |
| `CommandLine.InsertsBefore` | driver/ldmd.cpp:397-410 | an insertion goes behind all arguments, or before the first run argument and behind everything before it |
| `CommandLine.CombinedIs` | driver/ldmd.cpp:397-410 | LDMD's list is the user's arguments, then DFLAGS, then everything from -run on |
| `CommandLine.ExtendedIs` | driver/configfile.cpp:236-250 | LDC's list is its name, the switches, the arguments, the post-switches, then everything from a run argument on |
| `CommandLine.ParsedIs` | driver/main.cpp:282-285 | what names no file reaches LDC's parser as put together, and a file named by the config file is read in its place |
| `CommandLine.DflagsKeepRun` | driver/ldmd.cpp:397-410 | the user's arguments from -run on stay last, even if DFLAGS holds a -run |
| `Expansion.UnfoldKeepsTail` | driver/args.cpp:64-74 | arguments that name no file stay last, whatever is expanded before them |
| `Expansion.UnfoldedIsClean` | driver/args.cpp:64-74 | an expansion without error leaves no argument that names a file |
| `Expansion.UnfoldsInPlace` | driver/args.cpp:64-74 | a file is replaced by its words in its place |
| `ResponseExpand.ResponseExpandArgs` | driver/response.cpp:120-188 | every reference is replaced by its words, with every failure; it ends although files may refer to each other |
| `ResponseExpand.ExpandedSettled` | driver/response.cpp:139-173 | what it returns holds no reference and no empty argument |
| `ResponseExpand.ExpandedTail` | driver/response.cpp:139-173 | last arguments without references stay last, empty ones dropped |
| `ResponseExpand.ReplacedInPlace` | driver/response.cpp:143-172 | the words of a reference come out in its place; an empty or unknown name is an error |
| `ResponseExpand.SelfReference` | driver/response.cpp:148-152 | a file that only refers to itself is given up |
| `ResponseExpand.Limit` | driver/response.cpp:121-152 | a name can be expanded 32 times and no more |
| `CommandLine.SuffixArrives` | driver/main.cpp:282-285 | arguments from a run argument on end LDC's final list if, and unless expansion meets an error only if, none names a response file and none is dropped as empty |
| `CommandLine.RunSuffixArrives` | driver/ldmd.cpp:397-775 | the same for all that LDMD's combined list holds from its first -run on, whatever DFLAGS and the config file contain |
| `CommandLine.UserArgumentsArrive` | driver/ldmd.cpp:388-410 | the user's own arguments from -run on, which LDMD has expanded itself, always end LDC's final list |
| `CommandLine.ReferenceAfterRun` | driver/main.cpp:1111 | an input: DFLAGS with -run and a response file behind it does not arrive |
| `CommandLine.RecursiveReference` | driver/args.cpp:64-74 | an input: with a file that names itself, arguments can end the list although one was expanded |
| `CommandLine.RunLdmd` | driver/ldmd.cpp:824-847 | LDMD's whole way to LDC's final list, composed, with its usage exit and its other outcomes |
| `PassThrough.ActionEnds` | driver/ldmd.cpp:420-775 | whatever LDMD puts in the place of an argument is shorter than it or handed on as it is, -lib apart |
| `PassThrough.UnchangedExactly` | driver/ldmd.cpp:420-775 | a list is handed on unchanged if and only if each of its arguments is |
| `LongRun.LongRunArrivesExactly` | driver/ldmd.cpp:744-746 | everything behind --run reaches LDC as it was if and only if nothing before ends LDMD and each argument up to a -run is one LDMD hands on |
| `LongRun.LongRunArrives` | driver/args.cpp:84-86 | then --run and what follows end LDC's final list, on the condition of SuffixArrives |
| `LongRun.LongRunChangesArguments` | driver/args.cpp:84-86 | an input for which the program's own argument after --run is changed |
| `ResponseFile.AppendEscaped` | driver/args.cpp:130-139 | the inner loop appends the escaped argument |
| `ResponseFile.Setup` | driver/args.cpp:126-142 | the text is one quoted line for each argument |
| `ResponseFile.ReadBack` | driver/args.cpp:64-74 | a reader recovers every list; one that drops empty arguments does exactly if there are none |
| `ResponseFile.ContentInjective` | driver/args.cpp:126-142 | distinct lists never give the same text |
| `ResponseFile.Written` | driver/args.cpp:126-142 | the text of an argument in its own characters, with a quote or a backslash in it |
| `ResponseFile.ReadWords` | driver/args.cpp:64-74 | unquoted words are separated by space, tab, carriage return or newline |
| `ResponseFile.ReadQuoted` | driver/args.cpp:64-74 | either quote keeps what stands in it |
| `ResponseFile.ReadLiteral` | driver/args.cpp:64-74 | outside quotes a backslash takes the next character literally |
| `ResponseFile.ExecuteAndWait` | driver/args.cpp:155-176 | the child's effective arguments with and without a response file |
| `ArchiveMerge.TakeNext` | driver/archiver.cpp:108-121 | an entry finds a path exactly if one of its rank is left, it is that one, and erasing it leaves what is unused |
| `ArchiveProperties.EachPathOnce` | driver/archiver.cpp:99-137 | paths taken and paths left over are together all paths, each once |
| `ArchiveProperties.MergeConserves` | driver/archiver.cpp:99-137 | the members of the updated archive are, as a bag, every new member once and exactly the old entries not replaced |
| `ArchiveProperties.MergeIdempotent` | driver/archiver.cpp:99-137 | merging the same members into the result changes nothing, repeated names included |
| `ArchiveNames.MemberNames` | driver/archiver.cpp:71-72 | a member is called by the part of its path behind the last slash, exactly unless the path is two slashes and a name |
| `ArchiveNames.Directories` | driver/archiver.cpp:71-72 | the names of paths that end in a slash |
| `ArchiveNames.ReplacesInPlace` | driver/archiver.cpp:108-121 | a new member takes the place of the first entry of its name; all others are kept |
| `ArchiveNames.NewNamesAppend` | driver/archiver.cpp:126-134 | new members with new names follow the old ones in order |
| `ArchiveNames.UpdatesMember` | driver/archiver.cpp:65-137 | the entry n updated with dir/n is the new n |
| `ArchiveNames.NamedInNewArchive` | driver/archiver.cpp:65-80 | in a new archive dir/n is called n |
| `Archiver.FindNamed` | driver/archiver.cpp:108-110 | the first path with the basename |
| `Archiver.Ar.MergeEntry` | driver/archiver.cpp:103-122 | one entry is replaced in place by the path of its rank, or kept, with every failure |
| `Archiver.Ar.MergeEntries` | driver/archiver.cpp:101-124 | the loop over the old entries consumes exactly the used paths |
| `Archiver.Ar.AppendRest` | driver/archiver.cpp:126-134 | blanks are inserted and all overwritten, in order, unless a file fails to load |
| `Archiver.Ar.ComputeNewArchiveMembers` | driver/archiver.cpp:99-137 | succeeds exactly on updatable inputs, with the merged list and no blank in it |
| `Archiver.Ar.FrontExists` | driver/archiver.cpp:171-172 | a new archive has a first member to take the kind from |
| `Archiver.Ar.PerformWriteOperation` | driver/archiver.cpp:160-181 | the archive is written exactly on success, with the right kind; a failing write changes nothing |
| `Archiver.Ar.InternalAr` | driver/archiver.cpp:206-223 | the whole command, a corrupt archive and a failing write included |
| `Archiver.Ar.UpdatesTwice` | driver/archiver.cpp:160-181 | after a successful update the same update leaves every archive as it is, and succeeds exactly if it can be written |
| `Archiver.Ar.KindIs` | driver/archiver.cpp:166-172 | an existing archive keeps its kind, a new one has that of its first object file |
| `Archiver.Ar.FailsOn` | driver/archiver.cpp:99-178 | what makes an update fail, and that it then changes nothing |
| `Archiver.Ar.RunTwice` | driver/archiver.cpp:206-223 | the same for two runs of the command |
| `UserSwitches.ArgsBuilder.AddUserSwitches` | driver/linker-gcc.cpp:637-666 | appends the rendered merge, -Xlinker before exactly the wrapped linker switches |
| `UserSwitches.MergeParts` | driver/linker-gcc.cpp:637-666 | for any positions, nothing is repeated, reordered or invented |
| `UserSwitches.MergeIncreasing` | driver/linker-gcc.cpp:638-665 | positions only grow in the result |
| `UserSwitches.MergeComplete` | driver/linker-gcc.cpp:639-664 | every switch is passed on if and only if positions are disjoint and below the sentinel |
| `UserSwitches.ForDriver` | driver/linker-gcc.cpp:653-657 | -l, -L, -Wl, -shared and -static switches are passed as they are, every payload |
| `UserSwitches.ForLinker` | driver/linker-gcc.cpp:653-659 | every other linker switch is preceded by -Xlinker |
| `UserSwitches.CcSwitch` | driver/linker-gcc.cpp:660-661 | a cc switch is never wrapped |
| `UserSwitches.Sentinel` | driver/linker-gcc.cpp:640-645 | the largest unsigned position is taken for the end |
| `CodeGenerator.AddLinkerMetadata` | driver/codegenerator.cpp:75-99 | new operands precede the old ones, all kept in order |
| `CodeGenerator.InsertBitcodeFiles` | driver/linker.cpp:272-277 | bitcode files are linked in order up to one that does not load, which is fatal |
| `CodeGenerator.CodeGenerator.PrepareLLModule` | driver/codegenerator.cpp:208-233 | a new IRState unless one object is being built; the assertion holds |
| `CodeGenerator.CodeGenerator.FinishLLModule` | driver/codegenerator.cpp:235-246 | bitcode into the first module only, then written, or a fatal error; nothing in single-object mode |
| `CodeGenerator.CodeGenerator.WriteAndFreeLLModule` | driver/codegenerator.cpp:248-287 | one write with merged metadata and the pending hook, one free |
| `CodeGenerator.CodeGenerator.Emit` | driver/codegenerator.cpp:289-316 | the state after an emit, from every valid state, errors reported before it included |
| `CodeGenerator.CodeGenerator.Destroy` | driver/codegenerator.cpp:194-206 | the final write of a single object, or a fatal error |
| `CodeGenerator.CodeGenerator.SetDComputeHook` | driver/codegenerator.h:49-51 | replaces the pending hook |
| `CodeGeneratorRuns.LinkAllMetadata` | driver/linker.cpp:272-277 | inserted files append their metadata in order and lose nothing |
| `CodeGeneratorRuns.WrittenHolds` | driver/codegenerator.cpp:101-107 | in a written module D code's linker metadata precedes the bitcode files', all in order |
| `CodeGeneratorRuns.SingleObjectRuns` | driver/codegenerator.cpp:194-206 | one write of all modules and bitcode files to the first object, or none; one IRState freed once; exactly which runs are fatal, and that those write nothing |
| `CodeGeneratorRuns.ObjectPerModuleRuns` | driver/codegenerator.cpp:235-246 | module i written once to its own file, bitcode in the first only, every IRState freed once; exactly which runs are fatal, and that what they wrote is right |
| `CodeGeneratorRuns.HookFiresNext` | driver/codegenerator.cpp:275-278 | a hook fires on the next module written |
| `CodeGeneratorRuns.HooksFireOnce` | driver/codegenerator.cpp:275-278 | no hook fires more often than it was installed |
| `CodeGeneratorRuns.RunsStayValid` | driver/codegenerator.cpp:208-215 | every call of every run meets a state in which the assertion holds |
| `CodeGeneratorRuns.Drive` | driver/codegenerator.cpp:175-316 | the class goes through exactly the states of the run |

## Left out

- CommandLine.SuffixArrives: where LDC's expansion meets a response file that names itself, the condition is sufficient only (CommandLine.RecursiveReference).
- CacheRuns.EntriesAlwaysComplete: holds for guarded runs only; CacheConditions says where guards come from and in which sense they are exact, CacheHazards shows what happens without them.
- CacheRuns.RunFreezes: holds for guarded runs only; CacheConditions.RecoveriesFreeze derives the guard of copies from the unlinking before them.
- The D front end (`dmd/`), semantic analysis and code generation: opaque here.
- MD5, bitcode writing and the option, sanitizer and target settings that the cache key adds after the arguments: uninterpreted or not part of this model.
- What makes a valid identifier: any rule that excludes the empty string and commas.
- The choice of what to prune (ages, sizes): the pruner may delete any entry or temporary file.
- Creating the cache directory and an empty or missing cache directory: the cache is then not used.
- Windows branches, the splitting of a response text into words in `driver/response.cpp`, printing and browsing in LDMD, and warnings for options LDC does not have.
- LDC options that take the following argument as their value: the model reads each argument on its own.
- Config file location and parsing, and LDC's later filtering of `--DRT-` options.
- Remark files, logging and MLIR in the code generator.
- The thin-archive branch of the archiver, which its constant switches off.
- Path probing and flag tables of the linker drivers other than the merge of user switches.
