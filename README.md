# seqdat project core, modelled in Dafny

seqdat keeps a database of sequencing projects. Each project is a directory `<database>/<name>` holding:
- `meta.yml`, the project's attributes: name, owner, run type and sample list;
- `README.md`, an info sheet whose free-form tail begins at a line holding `## Additional Info`;
- `data/`, the raw `.fastq.gz` read files as downloaded.

This project models the `Project` class of `seqdat/project.py` and its module-level helpers. It proves what those operations guarantee:

- **Samples.** Identifying samples walks `data/`. It keeps the files whose suffix list is exactly `.fastq`, `.gz` and forms the sorted, duplicate-free list of the name parts before the first `_`. The visiting order cannot change that list.
- **Consolidation.** `move_data` groups the `*.fastq.gz` files by that prefix, in the order a Python dictionary keeps its keys. The files arrive in the recursive glob's order, which depends on the Python version. Under CPython 3.8 to 3.11 each directory's own files come before those of its subdirectories, which is not the order `walk` yields them in. `move_data` is stated for every enumeration that holds the matching files, each as often as the walk does. `cat_fastqgz` then concatenates each group, byte for byte and in order:
  - in paired-end mode, into an R1 and an R2 output;
  - otherwise, into one output, refusing a group that holds an `_R2_` file.

  The groups partition the found files. Consolidation succeeds exactly when it is paired or no found file names `_R2_`. Every output holds exactly the bytes of its files.
- **Metadata.** Loading, saving and updating the attributes:
  - a stored record is not replaced without consent;
  - saving twice writes nothing the second time;
  - a load after a save gives the saved record back;
  - `_update_attrs` changes only the fields it is given.
- **Info sheet.** The tail is copied verbatim. It is found exactly when some line holds the marker. Regenerating the sheet keeps its tail, provided the header holds no `## Additional Info`. A name, owner or run type containing the marker would make the next read return a shorter tail.

Files:

| file | module | contents |
|---|---|---|
| common.dfy | `Common` | bytes, `Option`, `Result`, `Outcome`, the error cases, `Flatten` |
| text.dfy | `Text` | `str.split`, substring test, `PurePath.suffixes`, the `*.fastq.gz` glob, lines of a text file, `str(n)` |
| samples.dfy | `Samples` | the directory tree, `walk`, Python string order, `sorted(set(...))`, `identify_samples` |
| metadata.dfy | `Metadata` | the record, `from_metadata`, `save_metadata`, `_update_attrs` |
| infosheet.dfy | `InfoSheet` | the header, `get_existing_info_sheet`, regeneration of README.md |
| consolidation.dfy | `Consolidation` | the output directory, grouping by sample, `cat_fastqgz`, the loop of `move_data` |
| project.dfy | `ProjectModel` | the project directory and the `Project` class with its methods |

The file system is modelled by two classes, so the operations change state in place as the source does:
- `ProjectModel.ProjectDir` holds whether the directory exists, the record in meta.yml, the text of README.md and the tree under `data/`.
- `Consolidation.OutDir` holds whether the output directory exists and the bytes of each file in it.

`Project` is a class with the attributes of the Python object. Its methods update those attributes and the directory.

Opening an output for binary writing empties it (`OutDir.Open`), and each `shutil.copyfileobj` appends one input (`OutDir.Append`). Each `sys.exit` and each uncaught exception of the core is a value of `Common.Error`:
- `NoData`: move_data finds no samples, even after a re-scan;
- `DestinationExists`: the output directory already exists;
- `AmbiguousMode`: R2 files show up in unpaired mode;
- `MarkerMissing`: the `StopIteration` of get_existing_info_sheet when no line holds the marker;
- `NotAProject`: from_metadata finds no project directory.

The operation that meets its `Error` returns `Fail` or `Failure`.

In these places the code does something other than its docstrings or a natural reading suggest; the model follows the code:
- **Stops at the first failing sample.** `move_data` stops at the first sample that fails, because `cat_fastqgz` calls `sys.exit`. Later samples are not consolidated, and files written for earlier samples remain (`Consolidation.FailureIsFinal`).
- **Marker found by containment.** The marker is found by containment, `"## Additional Info" in line`, not by line equality.
- **Missing README not written.** When README.md does not exist, `generate_info_sheet` writes nothing, so the placeholder tail it prepares is never used.
- **R1 name asymmetry.** The paired R1 output is named `<sample>.R1.raw.fastq.gz` and ignores the prefix and suffix, while the R2 output carries both. The model keeps this asymmetry.

## Model

| member | source | states |
|---|---|---|
| Text.Split | seqdat/project.py:204 | `split` gives at least one piece and no piece holds the separator |
| Text.JoinSplit | seqdat/project.py:204 | joining the pieces of a split with the separator gives the string back |
| Text.SplitJoin | seqdat/project.py:204 | splitting a join of separator-free pieces gives the pieces back |
| Text.SampleId | seqdat/project.py:204 | the sample id is a prefix of the name without `_`, followed in the name by `_` or by nothing |
| Text.FastqGzShape | seqdat/project.py:206 | the suffix test holds iff the name is leading dots, a non-empty dot-free stem, then `.fastq.gz` |
| Text.GlobAdmitsEveryFastqGz | seqdat/project.py:249 | every name that passes the suffix test of identify_samples also matches the glob of move_data |
| Text.GlobWiderThanSuffixTest | seqdat/project.py:249 | `S1.L001.fastq.gz` matches the glob but fails the suffix test, so the two file selections differ |
| Text.LinesFlatten | seqdat/project.py:303-306 | the lines a file iterator yields, concatenated, are the whole text |
| Text.LinesAppend | seqdat/project.py:285-287 | a text ending in a newline followed by more text has its own lines followed by those of the rest |
| Text.NatToString | seqdat/project.py:262-269 | `str(n)` is a non-empty string of decimal digits that denotes `n`, with no leading zero except for `0` itself |
| Samples.WalkYieldsExactlyTheFiles | seqdat/project.py:364-377 | `walk` yields a file iff it is held somewhere in the tree (directories are descended, never yielded) |
| Samples.Insert | seqdat/project.py:201-202 | inserting into a strictly ascending list keeps it strictly ascending and adds exactly the new element |
| Samples.SortedDistinct | seqdat/project.py:201-202 | `sorted(set(xs))` is strictly ascending and holds exactly the elements of `xs` |
| Samples.SortedListsWithSameElements | seqdat/project.py:201-202 | two strictly ascending lists with the same elements are equal |
| Samples.Ids | seqdat/project.py:203-207 | the comprehension holds exactly the ids of the walked files that pass the suffix test |
| Samples.SampleList | seqdat/project.py:200-209 | the sample list is strictly ascending and holds exactly the ids of the `.fastq.gz` files |
| Samples.SampleListIgnoresOrder | seqdat/project.py:200-209 | two file lists with the same members, in any order and with any repeats, give the same sample list |
| Samples.TreesWithSameFilesHaveSameSamples | seqdat/project.py:364-377 | two trees that hold the same files, however ordered and nested, give the same sample list |
| Metadata.FromMetadata | seqdat/project.py:88-106 | fails iff the project directory is missing; otherwise the stored record, or name with every other field unset |
| Metadata.SavedRecord | seqdat/project.py:135-157 | meta.yml afterwards holds the old record or the current one, and changes iff it was missing or the user agreed |
| Metadata.SaveNeedsConsent | seqdat/project.py:149-153 | a stored record is replaced only when it differs and the user agreed |
| Metadata.SaveIdempotent | seqdat/project.py:135-140 | after a save that wrote or found the record, a second save finds it unchanged and writes nothing |
| Metadata.SaveThenLoad | seqdat/project.py:128-157 | once saved, loading the project gives the current record back, every field included |
| Metadata.ApplyAllKeepsUnnamed | seqdat/project.py:177-179 | a field that no entry names keeps its value |
| Metadata.ApplyAllSetsNamed | seqdat/project.py:177-179 | with distinct keys, each named field ends with the value of its entry |
| InfoSheet.SampleCount | seqdat/project.py:262 | the count is `None` iff the sample list is unset or empty |
| InfoSheet.HeaderEndsWithNewline | seqdat/project.py:264-271 | the header ends with a newline, so the tail starts on a line of its own |
| InfoSheet.FirstMarkerLine | seqdat/project.py:303-304 | the position of the first line containing the marker: every line before it lacks the marker |
| InfoSheet.FirstMarkerLineAt | seqdat/project.py:303-304 | a position with the marker and none before it is the first marker line |
| InfoSheet.GetExistingInfoSheet | seqdat/project.py:290-308 | the loops return the heading plus every line after the first marker line, or fail when no line holds the marker |
| InfoSheet.Accumulate | seqdat/project.py:305-306 | the accumulation loop yields the concatenation of the remaining lines |
| InfoSheet.TailIsVerbatimSuffix | seqdat/project.py:300-308 | the tail is the heading followed by exactly the text after the first marker line |
| InfoSheet.TailFoundIffMarker | seqdat/project.py:303-304 | the tail is found iff some line contains the marker |
| InfoSheet.RegenerationPreservesTail | seqdat/project.py:285-287 | writing a marker-free header and a tail, then reading the tail back, gives the same tail |
| InfoSheet.RegeneratedSheetKeepsTail | seqdat/project.py:277-287 | regenerating README.md keeps the existing tail, provided the header holds no marker |
| Consolidation.OutDir.Create | seqdat/project.py:238-239 | making a missing output directory leaves it present and empty |
| Consolidation.OutDir.Open | seqdat/project.py:340 | opening an output for binary writing leaves it empty and the other files unchanged |
| Consolidation.OutDir.Append | seqdat/project.py:343-344 | `copyfileobj` appends the input's bytes to the output and changes nothing else |
| Consolidation.Glob | seqdat/project.py:249 | the files found are, each as often, exactly the walked files whose names match `*.fastq.gz`; none without `data/` |
| Consolidation.GlobbedFiles | seqdat/project.py:249 | any enumeration the glob may yield, whatever its order, holds exactly the walked files whose names match |
| Consolidation.GlobTreePermutes | seqdat/project.py:249 | the CPython 3.8 to 3.11 enumeration of the glob is a permutation of the filtered walk |
| Consolidation.GlobOwnFilesFirst | seqdat/project.py:249 | the glob lists a directory's own matching files before any file of its subdirectories |
| Consolidation.GlobBeforeSubdirectory | seqdat/project.py:249 | a matching file listed after a subdirectory is found before that subdirectory's match, while `walk` meets them the other way round |
| Consolidation.GlobMatchesAppend | seqdat/project.py:373-377 | filtering the walked files by the pattern distributes over concatenation |
| Consolidation.WithMarker | seqdat/project.py:335-336 | the R1/R2 selection holds exactly the group's files naming the marker |
| Consolidation.WithMarkerAppend | seqdat/project.py:335-336 | selecting from two lists one after the other selects from each in turn |
| Consolidation.WithMarkerOne | seqdat/project.py:335-336 | a single file is kept iff its name contains the marker; with the previous row, this fixes the selection's order and repeats |
| Consolidation.Dedup | seqdat/project.py:248-250 | the dictionary's keys are distinct and are exactly the ids met |
| Consolidation.GroupsMatchFiles | seqdat/project.py:248-250 | the keys are the ids met, each key's list is exactly its files in found order, and an absent key has no files |
| Consolidation.GroupBySample | seqdat/project.py:248-250 | the `setdefault` loop builds that key order and those groups, and every key in the order has a group |
| Consolidation.EachFileInItsOwnGroup | seqdat/project.py:250 | a found file is in the group of its own id and in no other |
| Consolidation.GroupsPartitionFiles | seqdat/project.py:248-255 | the groups, in key order, are a permutation of the found files |
| Consolidation.StreamInto | seqdat/project.py:340-345 | one `with open` block leaves the output holding exactly the concatenated inputs |
| Consolidation.CatFastqGz | seqdat/project.py:311-361 | paired: both outputs get their marker's files; unpaired: fails untouched on an `_R2_` file, else one output of all files |
| Consolidation.ConsolidateInto | seqdat/project.py:246-255 | groups the found files and runs cat_fastqgz per key in order; result and files are the fold that stops at the first failure |
| Consolidation.FailureIsFinal | seqdat/project.py:352-356 | once a sample fails, later samples change neither the outcome nor the files |
| Consolidation.ConsolidateSucceedsIff | seqdat/project.py:352-356 | the loop succeeds iff paired, or no group in the order has an `_R2_` file |
| Consolidation.ConsolidationSucceedsIff | seqdat/project.py:248-256 | consolidating the found files succeeds iff paired, or no found file names `_R2_` |
| Consolidation.SuccessIgnoresGlobOrder | seqdat/project.py:248-256 | two enumerations of the same files both succeed or both fail |
| Consolidation.PairedNeverFails | seqdat/project.py:338-350 | paired-end consolidation always succeeds |
| Consolidation.PairedOutputs | seqdat/project.py:338-350 | paired: each sample's R1 and R2 outputs exist and hold its `_R1_`/`_R2_` files' bytes, in order, even when empty |
| Consolidation.UnpairedOutputs | seqdat/project.py:351-361 | unpaired and successful: each sample's single output holds all its files' bytes, in order |
| Consolidation.R1NameInjective | seqdat/project.py:340 | distinct samples get distinct R1 output names |
| Consolidation.R1R2Distinct | seqdat/project.py:340-346 | with no suffix or the suffix `.raw`, no R1 output name equals any R2 output name, whatever the prefix |
| Consolidation.PairedMoveDataOutputs | seqdat/project.py:248-256 | paired move_data with no suffix or `.raw`: every sample found gets an R1 and an R2 output holding its own `_R1_`/`_R2_` files' bytes in glob order |
| Consolidation.R2NameInjective | seqdat/project.py:346 | with a fixed prefix and suffix, distinct samples get distinct R2 output names |
| Consolidation.UnpairedNameInjective | seqdat/project.py:357 | distinct samples get distinct unpaired output names |
| ProjectModel.ProjectDir.MakeDir | seqdat/project.py:275 | `mkdir(exist_ok=True)` leaves the directory present and its contents unchanged |
| ProjectModel.ProjectDir.WriteMeta | seqdat/project.py:157 | writing meta.yml replaces the record and nothing else |
| ProjectModel.ProjectDir.WriteReadme | seqdat/project.py:285-287 | writing README.md replaces its text and nothing else |
| ProjectModel.Project.Load | seqdat/project.py:77-106 | fails with `NotAProject` iff the directory is missing; otherwise a fresh project whose attributes are `FromMetadata`'s record |
| ProjectModel.Project.IdentifySamples | seqdat/project.py:195-211 | the sample list becomes the sample list of the walked tree; without `data/` it is unchanged; other attributes are kept |
| ProjectModel.Project.MoveData | seqdat/project.py:213-257 | `NoData` when no samples remain after a re-scan; `DestinationExists` when the output exists; else the consolidation fold over the glob's enumeration `found`, in whatever order that enumeration has |
| ProjectModel.Project.SaveMetadata | seqdat/project.py:128-157 | the outcome is the save decision, meta.yml becomes `SavedRecord`, the directory exists afterwards, nothing else changes |
| ProjectModel.Project.UpdateAttrs | seqdat/project.py:177-179 | the attributes become the fold of the `setattr`s over the entries, in order |
| ProjectModel.Project.UpdateMetadata | seqdat/project.py:159-175 | owner and run type take the answers, name and samples are kept, then the record is saved as `SaveMetadata` states |
| ProjectModel.Project.GenerateInfoSheet | seqdat/project.py:259-287 | no README: nothing written; no marker: `MarkerMissing`, unchanged; else header plus its own tail, only with consent |

## Left out

- Console output, progress bars and prompts (`rich`) are left out. The answers a prompt would give are parameters: `confirm` for each yes/no question, the owner and run-type answers of `update_metadata`.
- `Config.load` and the database path are not modelled: a project is given its `ProjectDir` directly. This fixed directory is not redirected by a rename. `ProjectModel.Project.UpdateAttrs` can change `name`, but then writes still go to the directory the project was loaded from. The Python code would use the new name. In the same way, `from_metadata` reads meta.yml from the directory of the name it is given but builds the project from the `name` stored in that file (seqdat/project.py:106), and the later paths use the stored name (seqdat/project.py:131, 198, 246, 274). When the stored name differs from the directory's, the Python code reads and writes another directory. The model always uses the one it loaded from.
- YAML parsing and dumping are not modelled. meta.yml is an abstract `Record` or absent. The following go unmodelled:
  - extra keys, which make the Python constructor raise `TypeError`;
  - malformed YAML;
  - the difference between a missing `samples` key and `samples: null`.
- `from_prompt`, `view_metadata`, `view_basespace_meta` and `fetch_data` are not modelled. They only prompt, display or call the external download tool.
- `walk` resolves paths through symlinks, and `is_dir` follows them. The model's tree has no links, and its `iterdir` order is the order of each directory's entries.
- Consolidation.Glob: gives only the CPython 3.8 to 3.11 order, where the entries of each directory come in the order the tree lists them and a directory's matches come before its subdirectories'. CPython 3.12 lists directories in the order `Path.walk` yields their children, so with `data/` holding `d1/d1a/` and `d2/` the match in `d2` comes before the one in `d1a`. That order is not defined here. `ProjectModel.Project.MoveData` takes the enumeration as a parameter and only requires it to hold the matching files, so its contract covers both orders. Only files are taken. A directory named `*.fastq.gz` would be matched by the Python glob and fail when opened.
- I/O failures are not modelled: permissions, a full disk, a read error, or an interrupted copy that leaves a partial output.
- Reading README.md uses Python's default text decoding and universal-newline translation. The model splits on `\n` only and treats the text as characters.
- Paths are not modelled. A prefix or suffix holding `/` would write outside the output directory. `mkdir(parents=True)` creating missing parent directories is not modelled.
- `Text.Suffixes` follows the `suffixes` property of CPython's pathlib up to 3.12. Later versions treat some names differently, such as one ending in a dot.
- Consolidation.PairedOutputs: stated only when the key order has no repeats and no R1 output name equals an R2 output name. `Consolidation.PairedMoveDataOutputs` shows that both hold for the groups move_data builds when the suffix is empty or `.raw`, for any prefix. Other suffixes are not covered. Otherwise a later write would replace an earlier output.
- Consolidation.UnpairedOutputs: stated only for a run that succeeds. After a failure, no further outputs are written (`Consolidation.FailureIsFinal`).
