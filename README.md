# skm — a verified model of the skill manager's core

skm installs *skills*, *agents*, *commands* and *rules*. These are Markdown files grouped into *bundles*. They come from configured *sources*, which are local directories or git repositories, and go into the directories of AI coding tools: `.claude`, `.opencode` and `.cursor`. This project models skm's core in Dafny:

- **Bundles.** How a bundle directory is scanned (`bundle.rs`). This covers the plain layout `{bundle}/{type}/*.md` and the `resources/{type}/{folder}/` layout, whose folders are grouped into bundles by their names.
- **Source manifests.** How a source declares bundles in `skm.toml` and how its component directories are scanned (`manifest.rs`).
- **Sources.** How a local source lists its bundles, and how a git URL becomes a cache path (`source.rs`).
- **Installing.** Where each tool receives each kind of file, and how a skill file gets a `name:` line in its frontmatter (`target.rs`).
- **Discovery and removal.** How installed artifacts are discovered, filtered, grouped, identified and removed, with empty directories pruned (`discover.rs`).
- **The install manifest.** The per-tool list of installed bundles (`install_manifest.rs`).
- **The configuration.** Its source list: adding, moving and removing sources, tilde expansion, and finding a bundle by name or by the prefix of an installed name (`config.rs`).
- **The command line.** The pure pieces of `main.rs`: choosing the tool and the types, parsing `source/bundle`, matching installed artifacts to a bundle, truncating descriptions, file previews, and converting between Cursor rules and commands.

**Files.**
- The filesystem is a value: a map from paths (sequences of components) to nodes. A node is a file with its text, or a directory with its entries in `read_dir` order. See `filetree.dfy`.
- Strings are sequences of characters. Rust's `str::lines`, `trim`, `split_once` and the UTF-8 byte length `len` are modelled exactly in `text.dfy`.
- Sorting, filtering and filter-map live in `seqs.dfy`.

**Structure.**
- Where the source loops or mutates, the model is a method or a class:
  - scans, `read_dir` loops, grouping, and the pruning loop;
  - `Config` and `InstallManifest` objects whose methods update their fields.
- Each such method is proved equal to a specification function.
- The properties the code and its tests promise are proved about those functions:
  - sortedness and permutation;
  - soundness and completeness of scans;
  - round trips between install and discovery;
  - idempotence of upserts and transformations;
  - what removal touches.

## Model

| member | source | states |
|---|---|---|
| Bundles.DirNames | src/bundle.rs:14-29 | The directory names searched for a type are non-empty, and the type's primary name comes first. |
| Bundles.DirNamesDistinct | src/bundle.rs:14-29 | The four primary directory names are pairwise distinct. Only rules have an alternative name (`cursor-rules`), and no alternative name is another type's primary name. |
| Bundles.EmptyBundle | src/bundle.rs:99-108 | A bundle made with no files is empty and has the given name. |
| Bundles.FilesOfTypeWithFiles | src/bundle.rs:353-360 | Replacing the files of one type changes `files_of_type` for that type only. |
| Bundles.IsEmptyIffNoFiles | src/bundle.rs:363-368 | A bundle is empty exactly when `files_of_type` is empty for every type. |
| Bundles.FlatFilesSound | src/bundle.rs:218-235 | Every file the flat scan keeps is a `.md` file listed directly in the directory, of the scanned type, named by its non-empty stem. |
| Bundles.FlatFileSound | src/bundle.rs:218-235 | Each kept file's parent is the scanned directory, and its name is the stem of its path. |
| Bundles.FlatFilesComplete | src/bundle.rs:218-235 | Every `.md` file listed in the directory is kept. |
| Bundles.ScanTypeFiles | src/bundle.rs:209-241 | Scanning a type fails exactly when its directory is a file, and yields nothing when the directory is missing. |
| Bundles.ScanTypeSorted | src/bundle.rs:237-238 | The scanned files are sorted by name. |
| Bundles.ScanTypeSound | src/bundle.rs:218-235 | Every scanned file is a `.md` file directly under `{bundle}/{type dir}`, of that type, with a non-empty stem as its name. |
| Bundles.ScanTypeComplete | src/bundle.rs:218-235 | Every `.md` file listed in the type directory appears among the scanned files. |
| Bundles.ScanType | src/bundle.rs:209-241 | The `read_dir` loop followed by the sort computes exactly the specified scan. |
| Bundles.FromPath | src/bundle.rs:73-93 | A path without a file name is an invalid bundle path. Otherwise the bundle is named after the last component and succeeds exactly when all four type scans succeed, each type holding its scan. |
| Bundles.ResourceName | src/bundle.rs:302-313 | The resource's name is the one parsed from `meta.yaml` when that file exists and parses, and the folder's name otherwise. |
| Bundles.FirstExisting | src/bundle.rs:324-333 | Returns the first expected file name that exists, or none when none exists. |
| Bundles.FirstMd | src/bundle.rs:336-347 | Returns the first listed entry that is a `.md` file, or none when there is none. |
| Bundles.ResourceFolder | src/bundle.rs:296-350 | A resource found in a folder is an existing entry directly inside the folder, of the requested type. Like `exists()`, this check also accepts a directory. |
| Bundles.ResourceFolderChoice | src/bundle.rs:296-350 | The lower-case expected file wins, then the upper-case one, then the first `.md` file. There is no resource exactly when none of these exists. The name follows `meta.yaml`. |
| Bundles.ScanResourceFolder | src/bundle.rs:296-350 | The folder scan computes exactly the specified choice. |
| Bundles.EntryResourcesIn | src/bundle.rs:255-287 | Scanning a type directory only appends. Every resource appended comes from a direct subfolder whose name does not start with `.` or `_`. |
| Bundles.DirsResourcesIn | src/bundle.rs:252-287 | Every resource collected over the type's directory names comes from a folder of one of those directories. |
| Bundles.TypeResourcesIn | src/bundle.rs:245-293 | Every collected resource has the scanned type and sits in `resources/{type dir}/{folder}`, where the folder is not hidden and not underscored. |
| Bundles.CollectResources | src/bundle.rs:245-289 | The nested loops over directory names and entries compute exactly the specified collection. |
| Bundles.ResourcesOfTypeSpec | src/bundle.rs:245-293 | The resources of a type are sorted by name, are a permutation of the collected ones, and all have that type. |
| Bundles.ScanResourcesType | src/bundle.rs:245-293 | The collection followed by the sort computes exactly the specified resources of a type. |
| Bundles.FromResourcesPath | src/bundle.rs:97-123 | Without `resources/`, the bundle is empty. With it, the bundle succeeds exactly when the four resource scans succeed, and each type holds its scan. |
| Bundles.FindGroup | src/bundle.rs:171-192 | Finds the group with the given name, or reports that none has it. |
| Bundles.AddToGroupShape | src/bundle.rs:171-192 | Adding a resource keeps group names distinct. It appends to the group of the same name, or appends a new group. Every other group is unchanged. |
| Bundles.GroupAllKeys | src/bundle.rs:138-196 | After grouping, group names are distinct, every resource has a group, and no group has metadata. |
| Bundles.GroupAllFiles | src/bundle.rs:138-196 | Each group's files of a type are exactly the collected files of that name and type, in collection order. |
| Bundles.ResourceBundles | src/bundle.rs:128-201 | A source without `resources/` lists no bundles. |
| Bundles.ResourceBundlesSorted | src/bundle.rs:198-200 | The listed bundles are strictly sorted by name. |
| Bundles.ResourceBundleFiles | src/bundle.rs:128-201 | Each listed bundle holds exactly the collected files of its name, per type. |
| Bundles.ResourceBundleFound | src/bundle.rs:128-201 | Every collected resource gives rise to a bundle of its name. |
| Bundles.AddAll | src/bundle.rs:138-196 | The `entry().or_insert_with()` loop computes exactly the specified grouping. |
| Bundles.ListFromResourcesPath | src/bundle.rs:128-201 | Listing the bundles of a `resources/` source computes exactly the specified listing. |
| Target.DestinationUnderToolDir | src/target.rs:73-167 | Every destination lies below the tool's own directory, at least three components deep. A destination exists exactly for Claude, for Cursor, and for OpenCode on non-rules. |
| Target.DestinationInjective | src/target.rs:73-167 | For a fixed tool, type and bundle, two file names get the same destination exactly when they are equal. |
| Target.DestInfoDescribesDestination | src/target.rs:57-70 | The destination summary exists exactly when a destination does. The destination path starts with the summary, up to its `*` wildcard. |
| Target.NameInBlockIff | src/target.rs:175-196 | The flag loop finds a `name:` line exactly when such a line occurs before the closing `---`. |
| Target.TransformSkillFile | src/target.rs:171-224 | The line loop computes exactly the specified transformation. |
| Target.TransformAddsBlock | src/target.rs:211-217 | Without frontmatter, the output's lines are `---`, `name: {skill}`, `---`, followed by the original lines. |
| Target.TransformKeepsBody | src/target.rs:211-217 | Without frontmatter, the original content ends the output. |
| Target.TransformKeepsNamed | src/target.rs:194-196 | Frontmatter that already has a `name:` line is left unchanged. |
| Target.TransformInsertsName | src/target.rs:198-208 | Frontmatter without a `name:` line gets `name: {skill}` right after the opening `---`, and every other line is kept. Stated for text without CRLF line ends. |
| Target.TransformNames | src/target.rs:171-224 | Every output starts with `---` and has a `name:` line before the closing fence. |
| Target.TransformIdempotent | src/target.rs:171-224 | Transforming twice is the same as transforming once. |
| Target.Installed | src/target.rs:73-167 | A file is written exactly when the tool supports its type, at the destination path. Content is copied unchanged except for OpenCode and Cursor skills. |
| Target.InstalledSkillNamed | src/target.rs:96-167 | An OpenCode or Cursor skill is always written with a `name:` in its frontmatter. |
| Manifests.ComponentDirChoice | src/manifest.rs:38-49 | A declared directory overrides a type's default, and the default is the type's directory name. |
| Manifests.LoadManifest | src/manifest.rs:53-60 | A manifest exists exactly when `skm.toml` is a file that parses, and it is what was parsed. |
| Manifests.ComponentEntryShape | src/manifest.rs:106-180 | A flat entry is a `.md`/`.mdc` file named by its non-empty stem, with no source directory. A folder entry is named by the folder, lies inside it, and records it as its source directory. |
| Manifests.ComponentFolderChoice | src/manifest.rs:126-179 | In a folder, the canonical upper-case file wins, then the lower-case one, then the first `.md` file. There is no entry exactly when none of these exists. |
| Manifests.ScanComponentFiles | src/manifest.rs:102-184 | Scanning a component directory fails exactly when it is a file, and yields nothing when it is missing. |
| Manifests.ScanComponentSpec | src/manifest.rs:102-184 | The scan is sorted by name and is a permutation of the entries found. It holds one file per qualifying entry. |
| Manifests.ScanComponentSound | src/manifest.rs:106-180 | Every scanned file comes from one listed entry. |
| Manifests.ScanComponentComplete | src/manifest.rs:106-180 | Every qualifying entry is scanned. |
| Manifests.ScanComponentFolder | src/manifest.rs:126-179 | The folder branch's loops compute exactly the specified entry. |
| Manifests.ScanComponentDir | src/manifest.rs:102-184 | The `read_dir` loop followed by the sort computes exactly the specified scan. |
| Manifests.BundleFromDeclaration | src/manifest.rs:63-98 | The bundle takes the declared name, the path joined to the root, and the declared description. It succeeds exactly when all four component scans do. |
| Manifests.BundleFromDeclarationFiles | src/manifest.rs:63-98 | Each type holds the scan of its (possibly overridden) component directory. |
| Sources.UrlToPathNoGitSuffix | src/source.rs:107-123 | No cache path ends in `.git`. |
| Sources.HttpsUrl | src/source.rs:107-123 | `https://host/path.git` maps to `host/path`. |
| Sources.SshUrl | src/source.rs:107-123 | `git@host:path.git` maps to `host/path`. |
| Sources.UrlFormsAgree | src/source.rs:107-123 | The HTTPS and SSH forms of the same repository share one cache path. |
| Sources.SourceBundles | src/source.rs:28-68 | A missing directory lists nothing. A `resources/` source lists its resource bundles. Otherwise listing fails exactly when the root is a file. |
| Sources.SourceBundlesSorted | src/source.rs:65 | The bundles are sorted by name. In the plain layout there is one per qualifying entry. |
| Sources.SourceBundlesSound | src/source.rs:41-62 | Every listed bundle comes from a directory entry that is not hidden and not `shell`, loads, and is not empty. |
| Sources.SourceBundlesComplete | src/source.rs:41-62 | Every such non-empty bundle directory is listed. |
| Sources.CollectBundles | src/source.rs:41-62 | The entries loop keeps, in listing order, exactly the entries that are directories, are neither hidden nor `shell`, load, and are not empty. |
| Sources.ListBundles | src/source.rs:28-68 | The `read_dir` loop followed by the sort computes exactly the specified listing. |
| Discover.AsStrLower | src/discover.rs:30-36 | Tool names are lower case, and distinct tools have distinct names. |
| Discover.WalkedStemNonEmpty | src/discover.rs:91-126 | A walked `.md` file always has a non-empty name. |
| Discover.WalkedSkillSound | src/discover.rs:91-126 | Everything found under a Claude type directory is a `.md` file below it, of that type and tool. It is named by its stem and bundled by its directory. |
| Discover.WalkedFound | src/discover.rs:107-114 | A `.md` file in a bundle folder of a Claude type directory is found, with that folder as its bundle. |
| Discover.ClaudeInstallFound | src/discover.rs:83-165 | A command or agent installed for Claude is discovered again, with its name, its bundle and its destination path. |
| Discover.ListedSkills | src/discover.rs:168-328 | Listing an OpenCode or Cursor type directory fails exactly when it is a file. |
| Discover.InstalledSkillsErr | src/discover.rs:67-80 | Discovery fails exactly when a listed type directory under an existing tool directory is a file. With no tool directories, it finds nothing. |
| Discover.ListedSkillSound | src/discover.rs:168-328 | Everything found in a listed directory comes from one of its entries, with the right tool and type. |
| Discover.ListedSkillComplete | src/discover.rs:168-328 | Every qualifying entry of a listed directory is found. |
| Discover.OpenCodeSkillInstallFound | src/discover.rs:176-203 | An OpenCode skill folder is discovered again under the combined name `{bundle}-{name}`. |
| Discover.CursorSkillInstallFound | src/discover.rs:269-296 | A Cursor skill folder is discovered again under the combined name. |
| Discover.FlatInstallFound | src/discover.rs:205-255 | An OpenCode agent or command file is discovered again under the combined name, with no bundle. |
| Discover.InstalledSkillsOrdered | src/discover.rs:67-80 | Discovery lists Claude's artifacts first, then OpenCode's, then Cursor's. |
| Discover.WalkTypeDir | src/discover.rs:91-126 | The directory walk computes exactly the specified Claude artifacts. |
| Discover.ReadTypeDir | src/discover.rs:176-203 | The `read_dir` loop computes exactly the specified listing. |
| Discover.DiscoverClaude | src/discover.rs:83-165 | Computes exactly the specified Claude discovery. |
| Discover.DiscoverOpenCode | src/discover.rs:168-258 | Computes exactly the specified OpenCode discovery. |
| Discover.DiscoverCursor | src/discover.rs:261-328 | Computes exactly the specified Cursor discovery. |
| Discover.DiscoverInstalled | src/discover.rs:67-80 | Computes exactly the specified discovery. |
| Discover.FilterByTool | src/discover.rs:350-356 | Keeps exactly the artifacts whose tool name equals the lower-cased argument. |
| Discover.FilterByToolName | src/discover.rs:350-356 | Filtering by a tool's name, in any letter case, keeps exactly that tool's artifacts, in order. |
| Discover.FilterByToolPartition | src/discover.rs:350-356 | The three tool names split any list: the three filtered lengths add up to the whole. |
| Discover.UniqueIdInjective | src/discover.rs:359-367 | When names and bundles contain no `/`, the identifier determines both. |
| Discover.GroupByTool | src/discover.rs:331-347 | There is a group exactly for each tool present, and within it for each type present. Each group holds exactly its artifacts, in their original order. |
| Discover.GroupSameSkills | src/discover.rs:370-378 | There is one group per identifier present, holding exactly the artifacts with that identifier, in order. |
| Discover.PruneSpec | src/discover.rs:396-412 | Pruning removes only the start directory and directories above it. It never removes a directory whose name starts with `.`, nor anything above one. It does remove an empty start directory not named with a leading `.`. It leaves the tree unchanged when the start directory is named with a leading `.` or holds something. |
| Discover.PruneChain | src/discover.rs:396-412 | Pruning removes exactly the longest chain of directories, going up from the start. Each is not named with a leading `.` and held nothing but the removed one below it. The walk stops at a directory named with a leading `.` or one still holding something. Only that directory's entry list changes otherwise. |
| Discover.RemoveSkillSpec | src/discover.rs:381-415 | Removal deletes the artifact's file and removes nothing new. It touches only the file's folder or its ancestors, and keeps the hidden tool directory above the folder. |
| Discover.RemoveSkillFolder | src/discover.rs:383-390 | A skill or rule whose parent is a directory is removed with that whole directory. Exactly the paths at or below it go. |
| Discover.RemoveSkillPrunes | src/discover.rs:392-412 | Otherwise the artifact must be a file. After it goes, exactly the chain of emptied directories above it is pruned, as Discover.PruneChain states. |
| Discover.RemoveSkill | src/discover.rs:381-415 | The removal and its pruning loop compute exactly the specified result. |
| InstallManifests.PathForSeparate | src/install_manifest.rs:24-26 | Each tool's manifest lies in its own tool directory. No installed file's destination is a manifest path. |
| InstallManifests.FindName | src/install_manifest.rs:59-68 | Finds the first entry with the name, or reports that none has it. |
| InstallManifests.UpsertExisting | src/install_manifest.rs:59-68 | Recording an installed bundle replaces its entry's source in place. The names are unchanged. |
| InstallManifests.UpsertNew | src/install_manifest.rs:59-68 | Recording a new bundle appends its entry. |
| InstallManifests.UpsertUnique | src/install_manifest.rs:59-68 | Recording keeps names unique, and the recorded source is the one stored for the name. |
| InstallManifests.UpsertTwice | src/install_manifest.rs:137-144 | Recording twice is the same as recording the second source once. |
| InstallManifests.RemoveNamed | src/install_manifest.rs:71-75 | After removal the name is gone. The list got shorter exactly when the name was present. |
| InstallManifests.RecordedNames | src/install_manifest.rs:161-168 | After recording, the names are the old names, with the new name appended if it was absent. |
| InstallManifests.LoadedEntries | src/install_manifest.rs:29-45 | A missing or unparsable manifest loads as empty. Otherwise it loads as parsed. |
| InstallManifests.InstallManifest.constructor | src/install_manifest.rs:9-12 | A new manifest is empty. |
| InstallManifests.InstallManifest.Load | src/install_manifest.rs:29-45 | Loading gives a fresh manifest holding the loaded entries. |
| InstallManifests.InstallManifest.RecordInstall | src/install_manifest.rs:59-68 | The search loop updates the list to the specified upsert. |
| InstallManifests.InstallManifest.RemoveBundle | src/install_manifest.rs:71-75 | Removes every entry with the name, and reports whether one was there. |
| InstallManifests.InstallManifest.BundleNames | src/install_manifest.rs:78-80 | The names of the entries, in order. |
| InstallManifests.InstallManifest.IsEmpty | src/install_manifest.rs:83-85 | Empty exactly when there are no bundle names. |
| Configs.ExpandTildeCases | src/config.rs:290-301 | `~/x` expands to `home/x` and `~` to home. Other paths are unchanged, and so is everything when there is no home. |
| Configs.ExpandTildeIdempotent | src/config.rs:269-280 | Only paths starting with `~` change, and expanding twice is the same as expanding once. |
| Configs.AddedSourceSpec | src/config.rs:136-149 | After adding, the source is listed, the old list is a prefix, and at most one entry was added. Adding is idempotent and keeps the list free of duplicates. |
| Configs.AddAcrossKinds | src/config.rs:136-149 | A local source never matches a git source, so adding one among the other kind always appends. |
| Configs.MovedSpec | src/config.rs:152-159 | Moving keeps the length and the multiset of sources, puts the moved source at its target, and keeps the others in order. Moving back restores the list. |
| Configs.KeepSpec | src/config.rs:162-179 | A local source is removed exactly when its expanded path or its name matches. A git source is removed exactly when its URL or its name matches. A source can always be removed by its display text or its name. |
| Configs.RemovedSpec | src/config.rs:162-179 | No remaining source matches, and the list got shorter exactly when some source matched. |
| Configs.Config.constructor | src/config.rs:35-40 | A new configuration uses the `claude` tool and the given sources. |
| Configs.Config.Fallback | src/config.rs:56-69 | The default configuration has the single local source `~/.claude-skills`. |
| Configs.Config.LoadOrDefault | src/config.rs:56-69 | A load error is passed on. A stored configuration is used as stored, and a missing one gives the default. |
| Configs.Config.AddSource | src/config.rs:136-149 | The search loop updates the list to the specified addition and keeps the default tool. |
| Configs.Config.MoveSource | src/config.rs:152-159 | An index out of range fails with "Invalid source index" and leaves the list unchanged. Otherwise the source is moved. |
| Configs.Config.RemoveSource | src/config.rs:162-179 | Keeps the non-matching sources, and reports whether any source matched. |
| Configs.FindBundle | src/config.rs:182-197 | Finds a bundle of that name exactly when some listable source has one, from the earliest such source, and the first such bundle within it. |
| Configs.FindBundleByPrefix | src/config.rs:204-226 | Finds the bundle whose `{name}-` is the longest prefix of the installed name, the earliest on ties. It finds none exactly when every candidate's name is empty. |
| Cli.SelectTool | src/main.rs:170-178 | `--cursor` wins, then `--opencode`, then `--codex`, and Claude is the default. |
| Cli.SelectTypes | src/main.rs:190-213 | The types are the flagged ones, or all four when none is flagged. They are never empty, in declaration order, without repeats. |
| Cli.ParseBundleRef | src/main.rs:1480-1486 | With a `/`, the input splits at the first one into a source without `/` and a bundle. Otherwise the whole input is the bundle. |
| Cli.ParseBundleRefRoundTrip | src/main.rs:1480-1486 | `source/bundle` parses back into its source and its bundle. |
| Cli.InstalledMatchesBundle | src/main.rs:1245-1259 | An artifact named `{bundle}-{name}`, or carrying the bundle, matches the bundle. So does one from a bundle whose name merely extends it with `-…`. |
| Cli.InstalledFlatMatchesBundle | src/main.rs:1245-1259 | An OpenCode agent or command installed from a bundle is discovered and matches that bundle. |
| Cli.TruncateDescription | src/main.rs:349-353 | Descriptions of at most 40 bytes are kept. Longer ones become their 37-byte prefix plus `...`, or panic when byte 37 is inside a character. ASCII never panics. |
| Cli.TruncateDescriptionPanics | src/main.rs:349-353 | A description of more than 20 two-byte characters makes the byte slice panic. |
| Cli.TruncateDescriptionAtBoundary | src/main.rs:349-353 | The cut at the last character boundary never fails. It keeps the 40-byte bound and 34 to 37 bytes of the text, and agrees with the byte slice wherever that does not panic. |
| Cli.CutPreviewLine | src/main.rs:494-495 | A stripped line longer than 50 bytes becomes `- `, an exact 47-byte prefix of it and `...`. There is none when byte 47 falls inside a character. An ASCII line is always cut, at character 47. |
| Cli.PreviewLine | src/main.rs:493-497 | The preview is `- ` plus the stripped line when that is at most 50 bytes. A longer one is cut to an exact 47-byte prefix plus `...`. The result never exceeds 52 bytes, and an ASCII line always has a preview. |
| Cli.PreviewLinePanics | src/main.rs:493-497 | A line of more than 25 times `é` makes the byte slice panic. |
| Cli.PreviewLineAtBoundary | src/main.rs:493-497 | The cut at the last character boundary never fails. It keeps the 52-byte bound and 44 to 47 bytes of the line. |
| Cli.PreviewLineAgrees | src/main.rs:493-497 | The boundary cut agrees with the byte slice wherever that does not panic. |
| Cli.Preview | src/main.rs:484-505 | The preview is empty exactly when the file is unreadable or has no candidate line. Otherwise it is the first candidate line's bulleted preview, of at most 52 bytes. It is built on the corrected cut, Cli.PreviewLineAtBoundary, so where the byte slice of the source panics it still returns a preview. |
| Cli.ConvertToRule | src/main.rs:1409-1443 | The pushes build exactly the specified rule. |
| Cli.TitleNoNewline | src/main.rs:1419-1432 | The title, from a `#` heading or else the file stem, contains no line break. |
| Cli.RuleLines | src/main.rs:1409-1443 | Without frontmatter, the rule's lines are the five header lines followed by the original lines. |
| Cli.DescriptionLine | src/main.rs:1434-1442 | Each header line is a single line. |
| Cli.RuleOfSpec | src/main.rs:1409-1443 | Content with frontmatter is kept. Otherwise the rule starts with `---`, ends with the content, and has the description as its second line. The result always has frontmatter, and converting again changes nothing. |
| Cli.ClosingFence | src/main.rs:1451-1465 | Finds the first `---` line after the opening one, or reports that there is none. |
| Cli.ConvertToCommand | src/main.rs:1446-1475 | The frontmatter loop computes exactly the specified command. |
| Cli.RuleThenCommand | src/main.rs:1409-1475 | Converting content without frontmatter to a rule and back to a command gives the original lines, with leading whitespace trimmed. |

## Left out

- Reading and writing files, `git clone`/`git pull`, the `HOME` and current-directory lookups, and the interactive user interface. Contents, `HOME` and the result of loading are parameters. The filesystem is a value, and writes appear as changes to it where they are modelled (removal).
- YAML and TOML parsing (`meta.yaml`, `skm.toml`, the configuration file, the install manifest) is a parameter: a function from text to an optional record. Serialisation (`save`) is not modelled.
- Per-entry I/O errors inside `read_dir` loops, which the source skips with `flatten()`, cannot occur in a filesystem value. `read_dir` order is the order of a directory's entries.
- `Config::save`, `config_path`, `exists`, `sources`, `git_sources` and `find_source_by_name` open git caches, which involves I/O. `find_bundle` and `find_bundle_by_prefix` therefore take each source's listing, or its error, as a parameter.
- `Tool::global_target`, `Tool::name`, `LocalSource::display_path` and `GitSource::cache_path_for_url` only format paths for display, or read the environment.
- The `Tool` enum in `src/target.rs` has no `Codex` variant, and OpenCode has no arm for rules. The command line and `src/install_manifest.rs` use both. The model has `Codex`, with no destination, and treats OpenCode rules as unsupported.
- The `Bundle` struct in `src/bundle.rs` has no `meta` field, but `src/manifest.rs` and `src/main.rs` read one. The model gives bundles a `meta` that is empty except for declared bundles.
- `InstalledTool::Codex`, used by `src/main.rs`, does not exist in `src/discover.rs`. Discovery is modelled for its three tools. Its `SkillType` is the four-variant type of `src/bundle.rs`.
- Cursor rules are written as `.cursor/rules/{bundle}-{name}.mdc`, but discovery looks for `rules/{folder}/RULE.md`. The model keeps both as written, so no install-then-discover lemma is stated for Cursor rules.
- `LocalSource::list_bundles` as written does not consult `skm.toml`. Manifest loading and declared bundles are modelled on their own.
- Configs.ExpandTildeIdempotent: states idempotence only for a home that is non-empty and does not start with `~`. Paths are compared as strings, not as `PathBuf` components.
- Configs.KeepSpec: compares expanded paths as strings, so `a/b` and `a//b` count as different.
- Cli.SelectTool: the flags are booleans. `clap` parsing is left out.
- Cli.Preview: models the corrected cut at a character boundary, not the panic of `get_file_preview` on a long line whose byte 47 falls inside a character. Cli.PreviewLine and Cli.PreviewLinePanics model that panic.
- Cli.InstalledMatchesBundle: states that `skill_matches_bundle` over-matches bundles whose names extend the requested one. It does not restrict it.
- Manifests.BundleFromDeclaration: the declared path is joined with `.` and `..` resolved lexically (FileTree.JoinRel). `PathBuf::join` keeps those components, so the bundle path differs in form from `root.join(path)`, though it names the same directory when no link is involved.
- Target.TransformInsertsName: stated only for text with no line ending in `\r`. `str::lines` also strips the `\r` of CRLF line ends, and that case is not stated.
- Rule titles: a path ending in `..`, or an empty path, has no file stem, and the title then falls back to `converted-rule`.
- Names and bundles are single path components. A name containing `/` is one component, not several.

## Findings

| source | as written | input that shows it | evidently intended | confidence | as-written member | corrected member |
|---|---|---|---|---|---|---|
| src/main.rs:349-353 | `&d[..37]` slices the description at byte 37 when it is longer than 40 bytes | a description of 21 times `é` (42 bytes): byte 37 falls inside a character and the slice panics | cut at the last character boundary before byte 37, then append `...` | high; not executed | Cli.TruncateDescriptionPanics | Cli.TruncateDescriptionAtBoundary |
| src/main.rs:493-497 | `&trimmed[..47]` slices the preview line at byte 47 when it is longer than 50 bytes | a line of 26 times `é` (52 bytes): byte 47 falls inside a character and the slice panics | cut at the last character boundary before byte 47, then append `...` | high; not executed | Cli.PreviewLinePanics | Cli.PreviewLineAtBoundary |
