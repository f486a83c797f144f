# bcvk: a verified model

bcvk runs bootable container images as virtual machines. This project models the parts of it
whose correctness does not show in any one function, and proves what they are for. `dafny verify
dfyconfig.toml` checks all of it.

## What is modelled

- **The base-disk cache.** `CacheJson` and `CacheMetadata` are the cache key: the hashed JSON text,
  the stamp on a disk and its check. `ToDisk` is one disk-building run as a machine that can stop
  after any step. `BaseDiskCreators` puts any number of such processes on one pool of files, with
  crashes between any two steps and files deleted by others. `PoolHistory` is the history of
  commands that run one after the other (create, run, prune, remove, remove a list, operate) on the
  references of `StoragePool`, and `PoolCommands` the commands themselves, tied to its steps.
- **The VM jobserver.** `Jobserver` is a pipe of tokens whose weighted read is not atomic: a
  blocked client keeps what it has read, and may be killed. `PipeReads` are its runs on a pipe
  whose reads are never short. `Resources` is the number of tokens:
  control group limits, physical memory and the fraction of it that VMs may take.
- **XML.** `Xml` is the event writer, the parser with its stack, and the search; `XmlText` spells
  and reads the events as characters; `VolumeMetadata` writes parsed trees back and rewrites volume
  descriptions. `DomainXml` and `DomainBuilder` are the domain generator, `DomainSettings` and
  `DomainReadBack` read its document back setting by setting, and `DomainInfo` is the listing of
  domains.
- **Manual pages.** `ManPages` updates the generated regions, `ManSync` is the pass over a page,
  `ManFormat` the generated text.
- **The QEMU command line.** `Qemu` is the builder and the argument generator, `QemuReferences` the
  names and references in what it generates, `QemuOptions` its options read word by word.
- **Small algorithms.** `VmNames`, `MountUnits`, `DiskSpecs`, `VirshRetry`, `KernelSearch`.

`Text` holds the string operations all of them use, `Wrappers` options and results.

## Assumptions

- SHA-256 is injective; a hash is kept as its inputs, and `CacheMetadata.HashFaithful` says that no
  more than that is used.
- Temporary file names are fresh, and an image name keeps its digest during a run. Where the second
  fails, `ToDisk.StampTrueIffDigestSteady` says what happens.
- No two requests of a run share a short hash (lemmas that need it say so), and VM names do not
  start with `bootc-base-`. A rename into place is atomic and overwrites. In `PoolHistory` one command
  runs at a time.
- `libvirt`, `podman`, `qemu-img` and the file system either do what they are asked or fail; each
  outcome is a parameter. `virsh dumpxml` returns the elements that were defined, so the disk listed
  for a VM is the one it was made with.
- A pipe is read without errors. In `Jobserver` a read may return less than the pipe holds, as POSIX
  allows; in `PipeReads` it takes the smaller of what is asked for and what is there.
- An XML reader reports a repeated attribute of a tag as an error of that attribute.
- Markup and command-line values hold no characters that would need escaping (brackets, quotes and
  ampersands; commas for QEMU). Reading trims text at both ends, as the parser asks of its reader.
- The fraction of memory is a ratio of whole numbers, rounded down.

## What the proofs found

- A source with the `containers-storage:` prefix never gets a base disk: `to_disk.rs:416` strips
  the prefix before stamping, `base_disks.rs:135` checks with it.
- Removing a transient VM that is in any state but running deletes the base disk it boots from,
  and with it the base disk of every clone (`PoolHistory.PausedTransientRemoved`). Removing it as
  one of a list does so even when it runs (`PoolHistory.ListedTransientRemoved`).
  `PoolHistory.HistoryRefsExact` is the exact condition over whole histories. Prune may delete that
  base disk while the VM runs (`PoolHistory.PrunedWhileRunning`).
- Clients of the jobserver that wait with part of their tokens can deadlock. How many requests it
  takes depends on whether the pipe hands out short reads: see `Jobserver.DeadlockIffSlack` and
  `PipeReads`.
- A token request near the 32-bit limit rounds up to almost nothing.
- Memory of 2^32 MiB or more is written to a domain but not read back, and 4 TiB already is not once
  libvirt states it in KiB. A label that is empty or has blank ends passes the validation but is not
  read back as it was.
- With no options to generate, a page with two options headers needs two passes.
- A raw volume whose tag is one the program makes up, `bcvk-bind-0` say, shares it with a bind mount.
- Guest paths that differ only in `-` against `\x2d`, or in a leading slash, share a unit name.
- A disk name with a comma is not recovered in the container.

## Model

| member | source | states |
|---|---|---|
| CacheMetadata.SerializeRoundTrip | crates/kit/src/cache_metadata.rs:97-121 | The hashed JSON text, with its string escapes and omitted options, decodes to the same nine inputs, for every input. |
| CacheMetadata.HashedTextExact | crates/kit/src/cache_metadata.rs:28-61 | Two requests hash the same text if and only if all nine keyed inputs agree; storage path and fs-verity switch do not enter. |
| CacheMetadata.CacheKeyExact | crates/kit/src/cache_metadata.rs:217-274 | A stamped disk is accepted if and only if every keyed input of the request equals the one it was stamped with, and so if and only if the two hashed texts are equal. |
| CacheMetadata.HashFaithful | crates/kit/src/cache_metadata.rs:97-121 | The hash, kept as its inputs, is the same exactly when the hashed text is: SHA-256 is taken to be injective and nothing more. |
| CacheMetadata.OpenDisk.WriteToFile | crates/kit/src/cache_metadata.rs:123-150 | Hash first, then digest; a failed first write leaves the file as it was, a failed second one leaves a disk that only these inputs accept; contents and backing file never change. |
| CacheJson.ReadWrittenObject | crates/kit/src/cache_metadata.rs:97-121 | Any object of the members the program writes is read back member by member: escapes of section 7 of RFC 8259, numbers, booleans and lists. |
| ToDisk.StepTouchesTargetOnly | crates/kit/src/to_disk.rs:411-519 | No step of a run touches a file other than its target, and in a dry run a step outside the writing phases touches none. |
| ToDisk.InterruptedRunKeepsTruth | crates/kit/src/to_disk.rs:421-519 | Stopped after any step, a single-writer run leaves every stamp in the directory naming fully installed contents. |
| ToDisk.InterruptedInstallNeverReused | crates/kit/src/to_disk.rs:625-680 | The same over any history of runs on one directory, each interrupted anywhere. |
| ToDisk.DryRunChangesNothing | crates/kit/src/to_disk.rs:421-466 | A dry run changes no file, at any step. |
| ToDisk.CachedRunChangesNothing | crates/kit/src/to_disk.rs:421-466 | A run that ends by reusing the disk has changed nothing. |
| ToDisk.ReusedDiskIsWanted | crates/kit/src/to_disk.rs:421-466 | The disk a run reuses holds the finished install of exactly the requested inputs. |
| ToDisk.StampTrueIffDigestSteady | crates/kit/src/to_disk.rs:649-680 | A fresh run leaves a true stamp if and only if the digest read again for the stamp is that of the image pulled. |
| ToDisk.FullRunIsExecution | crates/kit/src/to_disk.rs:411-519 | A run from start to end is one of the interruptible runs, so everything above holds of it. |
| ToDisk.Directory.Run | crates/kit/src/to_disk.rs:411-519 | The run with its early returns. It reuses the disk exactly when this is no dry run, the target can be read and its stamp is that of the wanted inputs, and then changes nothing; each of the other results, the failure included, has its own exact condition on the directory, the request and what works; a run that rebuilds leaves the new disk with its content and stamps, no file, or an empty file. It is also the state machine's run. |
| ToDisk.Directory.Build | crates/kit/src/to_disk.rs:473-519 | From the creation of the disk on: which failures leave no file, which an empty one, and what stands at the target otherwise; no other file changes. |
| ToDisk.Directory.WriteDiskMetadata | crates/kit/src/to_disk.rs:649-680 | The stamping calls in order, with both attributes afterwards; their failure is swallowed and leaves the disk unstamped or half stamped. |
| BaseDiskCreators.NextKeepsInv | crates/kit/src/libvirt/base_disks.rs:16-189 | Any step of any process, a crash, or a deletion by somebody else keeps the invariant of the shared pool. |
| BaseDiskCreators.ReachableInv | crates/kit/src/libvirt/base_disks.rs:16-189 | The invariant holds in every state of every run of any number of creators, started on any pool whose stamps are true and whose base disks are stamped for their names, VM disks and earlier bases included. |
| BaseDiskCreators.BasesAreComplete | crates/kit/src/libvirt/base_disks.rs:23-74 | In every reachable state of such a run, when no two requests share a short hash, a file at a base path is the completed install of the inputs its name stands for: nobody ever sees a half-written base disk. |
| BaseDiskCreators.LostTempNeverServed | crates/kit/src/libvirt/base_disks.rs:89-189 | A creator whose temporary file is deleted by somebody else once it was created never returns a base disk and never touches the pool again, whatever the others do. |
| BaseDiskCreators.ReturnedBaseIsComplete | crates/kit/src/libvirt/base_disks.rs:78-189 | When a process returns a base path, the file there is complete and built from its own inputs. |
| BaseDiskCreators.BasesStay | crates/kit/src/libvirt/base_disks.rs:42-74 | As long as nobody else deletes files, creators never take one another's base disks away. |
| BaseDiskCreators.NoDeletionNoStale | crates/kit/src/libvirt/base_disks.rs:42-60 | Without outside deletions the stale-disk branch is never taken in a run without colliding hashes. |
| BaseDiskCreators.PrefixedSourceNeverServed | crates/kit/src/libvirt/base_disks.rs:130-150 | A source with the storage transport prefix is never served: the installer strips the prefix before it stamps, the check after it does not. |
| BaseDiskCreators.PlainSourceServed | crates/kit/src/libvirt/base_disks.rs:78-189 | An undisturbed creator of a source without the prefix puts the finished disk in place and leaves no other file behind; with the row above, the exact condition. |
| BaseDiskCreators.CollisionReplacesBase | crates/kit/src/libvirt/base_disks.rs:42-60 | Why short hashes must not collide: the second request replaces the first one's finished disk. |
| DiskNames.BaseNameInjective | crates/kit/src/libvirt/base_disks.rs:23-40 | Base disk names are injective in the short hash. |
| StoragePool.BaseRemovalExact | crates/kit/src/libvirt/base_disks.rs:362-421 | Deleting a base disk breaks a reference if and only if some disk is backed by it. |
| StoragePool.PruningKeepsRefs | crates/kit/src/libvirt/base_disks.rs:362-421 | Deleting any set of prunable base disks keeps every disk's base disk in place. |
| StoragePool.BackedIsMentioned | crates/kit/src/libvirt/base_disks.rs:461-501 | A disk backed by a base disk is always found to mention it, or counts as mentioning it when it cannot be read. |
| StoragePool.CountAgreesWithPrune | crates/kit/src/libvirt/base_disks.rs:424-458 | The displayed count and prune's test agree in one direction always, in both when every volume can be read. |
| PoolCommands.Pool.FindOrCreateBaseDisk | crates/kit/src/libvirt/base_disks.rs:16-75 | On any pool of true stamps, stale and unstamped base disks included: succeeds exactly when a valid base disk is there and readable, or none is or a stale one was removed and every operation works on a prefix-free source; changes the base path only; breaks references if and only if it fails after removing a base disk that backs something. |
| PoolCommands.Pool.CreateBaseDisk | crates/kit/src/libvirt/base_disks.rs:78-189 | Builds under a temporary name, verifies, renames into place; every failing exit removes the temporary file. |
| PoolCommands.Pool.CloneFromBase | crates/kit/src/libvirt/base_disks.rs:195-292 | Succeeds exactly when the earlier disk gives way, the base disk is there and can be read, and the volume is created; the disk is then backed by the base; changes no other file; a failure at most deletes the earlier disk; keeps all references. |
| PoolCommands.Pool.ListBaseDisks | crates/kit/src/libvirt/base_disks.rs:295-349 | Lists exactly the files with base-disk names, each once. |
| PoolCommands.Pool.CheckBaseDiskReferenced | crates/kit/src/libvirt/base_disks.rs:461-501 | True if and only if some volume mentions the base disk or cannot be read. |
| PoolCommands.Pool.CountBaseDiskReferences | crates/kit/src/libvirt/base_disks.rs:424-458 | Counts the readable volumes that mention the base disk. |
| PoolCommands.Pool.PruneBaseDisks | crates/kit/src/libvirt/base_disks.rs:362-421 | Succeeds exactly in a dry run or when no prunable base disk is refused, with exactly the prunable ones, which are then gone; whatever the outcome, a file that is gone was prunable and not refused, the others are unchanged, and references stay intact. |
| PoolCommands.Pool.RunVm | crates/kit/src/libvirt/run.rs:442-538 | A transient VM boots from the base disk itself, a persistent one from a clone backed by it. Succeeds exactly when the name is free, the base disk can be had, the VM can be defined and, if persistent, its disk cloned and the VM started; the domains afterwards are stated for every outcome, a VM left defined but not started included; only the base path and the VM's own disk change; the condition under which references stay intact is exact. |
| PoolCommands.Pool.RemoveVm | crates/kit/src/libvirt/rm.rs:64-148 | Succeeds exactly under the stated condition on the VM's state, the options and what works; says which file and which domain go and what becomes of the domain otherwise; references stay intact if and only if the VM is persistent or running, or its disk is not deleted, or nothing is backed by it. |
| PoolCommands.Pool.RemoveOne | crates/kit/src/libvirt/rm_all.rs:86-124 | One VM of a list: the file and the domain that go, each under its exact condition, and when the removal counts. |
| PoolCommands.Pool.RemoveAll | crates/kit/src/libvirt/rm_all.rs:84-146 | The loop over a list of VMs, which goes on after an error: succeeds exactly when the VMs are different, there, persistent, not kept running, and each can be undefined; exactly the disks of the VMs it may remove are gone, no other VM changes; its effect is that of the removals one after the other. |
| PoolCommands.RemoveAllIsHistory | crates/kit/src/libvirt/rm_all.rs:84-146 | The removal of a list is a history of removals of listed VMs, so the condition on histories is its condition. |
| PoolHistory.StepRefsExact | crates/kit/src/libvirt/base_disks.rs:16-421 | One command of any kind: every VM disk keeps its base disk if and only if the command takes away no base disk that backs a disk; which one it takes is read off the state before it. |
| PoolHistory.HistoryRefsExact | crates/kit/src/libvirt/base_disks.rs:16-421 | Every history of creating, running, pruning, removing and operating VMs: each VM disk's base disk is there in all states if and only if no command does such harm. |
| PoolHistory.MindfulHistoryKeepsRefs | crates/kit/src/libvirt/rm.rs:64-148 | When transient VMs are only run, stopped and removed one at a time, every history, of any length, keeps every VM disk's base disk and every stamp. |
| PoolHistory.PausedTransientRemoved | crates/kit/src/libvirt/rm.rs:101-107 | From an empty pool: run a transient VM, run a persistent one of the same image, pause the first, remove it; the persistent VM has lost its base disk. |
| PoolHistory.ListedTransientRemoved | crates/kit/src/libvirt/rm_all.rs:86-124 | The same without any pause when the transient VM is removed as one of a list. |
| PoolHistory.BootDiskSurvivesIffMentioned | crates/kit/src/libvirt/base_disks.rs:362-421 | A prune that is not refused leaves the disk a transient VM boots from if and only if some volume mentions it; the VM goes on either way. |
| PoolHistory.PrunedWhileRunning | crates/kit/src/libvirt/base_disks.rs:362-421 | From any pool that does not mention the base disk: after running a transient VM and pruning, the VM is running without the disk it boots from. |
| Jobserver.TokensConserved | crates/itest/src/resources.rs:94-145 | In every interleaving pipe, partial reads and permits add up to the tokens created, less those that killed clients took along. |
| Jobserver.ReleaseFits | crates/itest/src/resources.rs:94-102 | A release never overfills the pipe, so it cannot block. |
| Jobserver.DeadlockIffSlack | crates/itest/src/resources.rs:131-145 | If a pipe read may be short, clients can all end up waiting for one another if and only if their requests, each less one, add up to the tokens or more. |
| PipeReads.WholeDeadlockNeedsMore | crates/itest/src/resources.rs:131-145 | If reads are never short and no request exceeds the tokens, a deadlock needs more: the slack of the requests without some one of them must still reach the tokens. |
| PipeReads.EqualRequestsDeadlock | crates/itest/src/resources.rs:131-145 | If reads are never short, requests of one size deadlock if and only if that size exceeds the tokens, whatever their number. |
| PipeReads.OnesMakeSlackExact | crates/itest/src/resources.rs:131-145 | With as many one-token requests as tokens, the condition for short reads is the exact one for whole reads as well. |
| PipeReads.SlackIsNotEnough | crates/itest/src/resources.rs:131-145 | Two requests for both of two tokens: enough slack, yet no deadlock with whole reads. |
| Jobserver.EveryRunCanFinish | crates/itest/src/resources.rs:94-145 | Below that bound every run without kills can be carried on until every client has finished. |
| Jobserver.StuckOnlyWhenFinished | crates/itest/src/resources.rs:94-145 | Below that bound a run without kills that cannot go on is finished. |
| Jobserver.RunsAreBounded | crates/itest/src/resources.rs:94-145 | No run is longer than the requests allow, so runs end. |
| Jobserver.TokensCoverMemory | crates/itest/src/privilege.rs:79-90 | The rounding covers a VM's memory if and only if the 32-bit sum does not wrap, and with the fewest tokens that do. |
| Jobserver.MemoryBounded | crates/itest/src/privilege.rs:79-90 | The VMs that run at one time, those of killed clients included, never exceed tokens times 128 MiB, in any interleaving. |
| Jobserver.VmJobserver.Acquire | crates/itest/src/resources.rs:131-145 | Takes what is there up to the request; a blocked call keeps its part. |
| Jobserver.VmJobserver.Release | crates/itest/src/resources.rs:94-102 | Writes the permit's tokens back. |
| Resources.WalkUp | crates/itest/src/resources.rs:263-293 | The walk ends at the root, never at its ordering guard, with the least numeric limit over exactly the groups from the process's own up to the root. |
| Resources.DetectCgroupV2 | crates/itest/src/resources.rs:263-293 | No limit without a unified-hierarchy line; otherwise the least limit of that group's ancestors. |
| Resources.GroupReadBack | crates/itest/src/resources.rs:263-271 | The components of a group path are those it is spelled with. |
| Resources.GroupFound | crates/itest/src/resources.rs:265-268 | The first line of the unified hierarchy names the group, whatever lines stand around it. |
| Resources.LimitReadBack | crates/itest/src/resources.rs:273-282 | A limit file is read back: `max`, no file and a number beyond 64 bits are no limit. |
| Resources.BudgetFits | crates/itest/src/resources.rs:213-247 | Without an override and with a fraction of at most one, more than one token means that the tokens fit both the group limit and the physical memory. |
| Resources.BudgetIsLargest | crates/itest/src/resources.rs:213-222 | One more token would exceed the fraction of the memory; an override is honoured, but grants at least one token. |
| Resources.MemoryMibExact | crates/itest/src/resources.rs:235-247 | While the sizes fit their integers the memory is the smaller of group limit and physical memory to the MiB; unknown physical memory counts as 4 GiB. |
| Resources.RunningVmsFitHost | crates/itest/src/resources.rs:109-145 | Put together: with the default budget the VMs that run at one time, orphaned ones included, fit the host, in every interleaving. |
| Xml.ParseXmlDom | crates/kit/src/xml_utils.rs:160-241 | The loop with its stack and root computes the specification parser, reader errors included. |
| Xml.ParserTracksContext | crates/kit/src/xml_utils.rs:160-241 | On every well-nested stream the stack holds exactly the open elements with what they contain so far. |
| Xml.ParsedDocument | crates/kit/src/xml_utils.rs:160-241 | A well-nested document parses to its own tree, texts trimmed. |
| Xml.ContextWrites | crates/kit/src/xml_utils.rs:29-103 | A stream that is well nested is the printing of one tree of open elements and no other. |
| Xml.FindIsFirst | crates/kit/src/xml_utils.rs:128-141 | The recursive search returns the first element of the name in document order, and nothing only if there is none. |
| Xml.XmlWriter.WriteTextElementWithAttrs | crates/kit/src/xml_utils.rs:57-69 | Adds one complete text element to the open one; empty text writes no text event. |
| XmlText.ReadSpelled | crates/kit/src/xml_utils.rs:36-99 | For names, values and texts that need no escaping, the characters of a stream (section 3.1 of XML 1.0) are read back as its tokens. |
| XmlText.ParsedCharacters | crates/kit/src/xml_utils.rs:160-241 | Down to characters: parsing the text of a well-nested document gives the document's tree. |
| VolumeMetadata.WriteXmlNode | crates/kit/src/libvirt_upload_disk.rs:322-348 | Writes the node as one well-nested element, its attributes in any order the map yields. |
| VolumeMetadata.WriteThenParse | crates/kit/src/libvirt_upload_disk.rs:322-348 | Writing and parsing gives the tree back with trimmed texts under every attribute order: the same tree if and only if it was trimmed. |
| VolumeMetadata.ParseWriteParse | crates/kit/src/libvirt_upload_disk.rs:322-348 | Parse, write, parse is parse, for every token stream that parses at all, mixed text and several roots included. |
| VolumeMetadata.AddVolumeMetadata | crates/kit/src/libvirt_upload_disk.rs:200-237 | The rewrite, child by child into the writer, gives a well-nested document that parses to the description with the metadata last. |
| VolumeMetadata.RewriteReplaces | crates/kit/src/libvirt_upload_disk.rs:211-233 | Rewriting twice is the second rewrite: metadata is replaced, every other child stays in order. |
| VolumeMetadata.SourceImageReadBack | crates/kit/src/libvirt_upload_disk.rs:219-233 | The image recorded is the image found, if no other child uses the element's name. |
| DomainBuilding.DomainBuilder.BuildXml | crates/kit/src/libvirt/domain.rs:263-637 | Fails exactly without a name or on an unsupported architecture; otherwise writes one well-nested root whose parse reads back as the settings: the disk with its format and its transient mark exactly when that is set, network, consoles, channels, serial ports, file systems, TPM, firmware, features, memory, metadata and QEMU arguments, for every configuration and metadata order. |
| DomainReadBack.DocumentReadsBack | crates/kit/src/libvirt/domain.rs:263-637 | For every configuration, architecture and metadata order, readers that know nothing of the generator find every setting in the document, section by section, and nothing else under those names. |
| DomainSettings.DevicesRead | crates/kit/src/libvirt/domain.rs:410-611 | The device section: disks with driver, target, transient and read-only marks, interface, consoles, channels, serial ports, file systems in order, graphics and TPM, each exactly as set. |
| DomainBuilding.DomainBuilder.WriteDomain | crates/kit/src/libvirt/domain.rs:278-636 | Every branch of the generator adds the part of the document its setting calls for, and nothing else. |
| DomainInfo.ExtractBuilt | crates/kit/src/domain_list.rs:146-213 | For every configuration, architecture and metadata order, given keys that stay apart once prefixed, the listing reads back memory, processors, disk, image, date, port and labels as put in; memory of 32 bits or more is not read back. |
| DomainInfo.RunReadBack | crates/kit/src/libvirt/run.rs:1240-1265 | For the settings of the run command: the port always comes back, the image if and only if it has no blank ends, the labels if and only if each is good. |
| DomainInfo.LabelsReadBack | crates/kit/src/libvirt/run.rs:342-352 | A joined label list is split back into itself if and only if every label is non-empty, trimmed and comma-free; the validation only asks for the last. |
| DomainInfo.KeyReadBack | crates/kit/src/domain_list.rs:155-199 | Given keys that stay apart once prefixed, each metadata key is found in the metadata, under either spelling, and in no other part of the document. |
| DomainInfo.DiskReadBack | crates/kit/src/domain_list.rs:314-341 | The disk found is the builder's disk, or else its ignition disk; no other source element is taken for it. |
| DomainInfo.MemoryReadBack | crates/kit/src/libvirt/mod.rs:85-123 | Memory printed in MiB is read back unchanged if and only if it fits 32 bits. |
| DomainInfo.KibReadBack | crates/kit/src/libvirt/mod.rs:112-123 | Memory in KiB, as libvirt states it or with no unit at all, is read back if and only if the number of KiB fits 32 bits. |
| DomainInfo.ClashingKeysReadByOrder | crates/kit/src/libvirt/domain.rs:613-628 | Keys that clash once prefixed make the listing depend on the order of the map. |
| DomainInfo.FirmwareExclusive | crates/kit/src/libvirt/domain.rs:300-364 | Automatic firmware never stands next to an explicit firmware file. |
| DomainInfo.SmmMatchesLoader | crates/kit/src/libvirt/domain.rs:374-395 | On x86_64 system management mode is on if and only if the loader asks for secure boot; elsewhere never. |
| ManPages.MarkdownFile.UpdateMarkdownWithOptions | crates/xtask/src/man.rs:208-257 | Rewrites the first options region, or reports the missing end marker; writes the file only if it changes. |
| ManPages.MarkdownFile.UpdateMarkdownWithSubcommands | crates/xtask/src/man.rs:166-205 | The same for the subcommands table. |
| ManPages.MarkdownFile.SyncPage | crates/xtask/src/man.rs:368-390 | One page of the pass: both markers are looked for before the first write; a page in step is not written. |
| ManPages.OptionsWritten | crates/xtask/src/man.rs:208-257 | The page after the update: an options header exactly when there are options, their text between the markers, and all other text as it was but for blank space and one old header before the region. |
| ManPages.SubcommandsWritten | crates/xtask/src/man.rs:166-205 | The same for the table, which has no header. |
| ManPages.NothingWritten | crates/xtask/src/man.rs:166-240 | A page without the begin marker is left alone; one whose begin marker is followed by no end marker is an error. |
| ManPages.FirstSplit | crates/xtask/src/man.rs:177-186 | A marker after text that does not hold it is found there and nowhere earlier, because markers cannot overlap themselves. |
| ManPages.OptionsIdempotent | crates/xtask/src/man.rs:208-257 | Updating options twice is updating once if and only if the generated text holds no end marker or, with no options, no second header stands before the region. |
| ManPages.SubcommandsIdempotent | crates/xtask/src/man.rs:166-205 | Updating the table twice is updating once if and only if the table holds no end marker. |
| ManSync.SyncOptionsFirst | crates/xtask/src/man.rs:368-390 | One pass over a page with the options first changes only the two insides, the options header and the blank space before each region. |
| ManSync.SyncSubcommandsFirst | crates/xtask/src/man.rs:368-390 | The same for a page with the subcommands first. |
| ManSync.FixedPointOptionsFirst | crates/xtask/src/man.rs:368-390 | With marker-free generated text one pass reaches the fixed point if and only if there are options or no second header. |
| ManSync.FixedPointSubcommandsFirst | crates/xtask/src/man.rs:368-390 | The same for the other order of regions. |
| ManSync.SecondPassOptionsFirst | crates/xtask/src/man.rs:368-390 | With no options every pass takes one header away: the second pass settles a page if and only if no third header stands there. |
| ManSync.TwoHeadersTakeTwoPasses | crates/xtask/src/man.rs:237-252 | A page with two headers and no options is changed by its second pass and by none after that. |
| ManFormat.FormatOptionsAsMarkdown | crates/xtask/src/man.rs:108-163 | The generated option text; it holds no marker if no text of the command line holds an opening bracket. |
| ManFormat.FormatSubcommandsAsTable | crates/xtask/src/man.rs:81-105 | The generated table, with the same guarantee. |
| ManFormat.OptionTextReadBack | crates/xtask/src/man.rs:108-163 | The option text line by line: the arguments, then the options, each with its flags, help, possible values and default in order, and nothing else; split at line ends it gives those lines back. |
| ManFormat.TableReadBack | crates/xtask/src/man.rs:81-105 | The table line by line: its head, one row for each command in order, with the whole path of the command and its description without the dots at its end. |
| ManFormat.NextPassWritesNothing | crates/xtask/src/man.rs:346-394 | With bracket-free texts a page brought in step stays as it is. |
| Qemu.QemuConfig.AddFd | crates/bcvk-qemu/src/qemu.rs:429-432 | Appends the file and returns the path of its set. |
| Qemu.QemuConfig.AddVirtioSerialPipe | crates/bcvk-qemu/src/qemu.rs:435-445 | Adds the pipe's write end and a serial device that appends to its set; hands out the read end. |
| Qemu.QemuConfig.Spawn | crates/bcvk-qemu/src/qemu.rs:582-837 | The indexed loops produce, part by part, the arguments and the numbered files; the lemmas of `QemuReferences` and `QemuOptions` say of these arguments what reaches QEMU. |
| QemuReferences.ArgvResolves | crates/bcvk-qemu/src/qemu.rs:630-775 | For every configuration all generated names are distinct and every reference has a definition, so exactly one. |
| QemuReferences.DisksReachTheirFiles | crates/bcvk-qemu/src/qemu.rs:641-668 | Each configured disk's device leads to its own file, format and write protection. |
| QemuReferences.MountsReachTheirSockets | crates/bcvk-qemu/src/qemu.rs:695-707 | Each mount's device leads to its own socket. |
| QemuReferences.RootReachesItsSocket | crates/bcvk-qemu/src/qemu.rs:671-689 | The root file system leads to the root socket. |
| QemuReferences.SerialsReachTheirFiles | crates/bcvk-qemu/src/qemu.rs:712-734 | Each serial port leads to its own output file. |
| QemuReferences.FdPathStays | crates/bcvk-qemu/src/qemu.rs:429-432 | After any further builder calls a path returned for a file still names the set that carries exactly that file; the numbers of passed files differ from one another and from the vsock's. |
| QemuReferences.PipePortReachesPipe | crates/bcvk-qemu/src/qemu.rs:435-445 | A pipe's serial port writes into the set that carries the pipe's own write end, after any further calls. |
| QemuOptions.OptionsReadBack | crates/bcvk-qemu/src/qemu.rs:590-812 | Read word by word as options and values, the command line gives back the kernel, the initial file system and the joined kernel arguments, or the ISO image, memory, processors, machine type, the serial log's own file and the monitor, then the credentials of the configuration and of the call in this order, and each firmware entry with its own path. |
| QemuOptions.SingleDevices | crates/bcvk-qemu/src/qemu.rs:586-789 | Memory object, network with its forwarded ports, console with its monitor and vsock device are on the command line exactly as configured, the memory object with the size of the memory, and no second one of a kind. |
| QemuOptions.NothingElseAttached | crates/bcvk-qemu/src/qemu.rs:641-734 | Every disk, mount or serial device on the command line is a configured one, or the root. |
| QemuOptions.VsockReachesItsFile | crates/bcvk-qemu/src/qemu.rs:783-793 | The vsock device carries the given guest number and the number under which exactly the given file is passed. |
| QemuOptions.StopsAtReboot | crates/bcvk-qemu/src/qemu.rs:624-626 | The machine stops at a reboot exactly when the configuration asks for it. |
| VmNames.GenerateUniqueVmName | crates/kit/src/libvirt/run.rs:780-817 | Ends after at most one candidate more than there are names, with an unused name of the least suffix. |
| VmNames.NameOfImage | crates/kit/src/libvirt/run.rs:780-794 | Directories, name and tag of an image reference come apart, for every such reference. |
| VmNames.Sanitize | crates/kit/src/libvirt/run.rs:796-805 | Good characters stay in place, any other becomes a hyphen. |
| VmNames.TakenCandidates | crates/kit/src/libvirt/run.rs:804-814 | Pigeonhole: as many candidates as there are names plus one cannot all be taken. |
| MountUnits.PathReadBack | crates/bcvk-qemu/src/credentials.rs:23-34 | An absolute path without backslashes is read back from its unit name, so such paths never share one. |
| MountUnits.UnitNamesCollide | crates/bcvk-qemu/src/credentials.rs:23-34 | Two paths share a unit name if and only if their components agree once an escaped dash is read as a dash. |
| MountUnits.CollidingPaths | crates/bcvk-qemu/src/credentials.rs:23-34 | Every name with a dash collides with its escaped and with its relative spelling. |
| MountUnits.ProcessBindMounts | crates/kit/src/libvirt/run.rs:915-973 | Adds each mount under the prefix and its index, with its unit name. |
| MountUnits.TagsDistinct | crates/kit/src/libvirt/run.rs:1293-1375 | All file systems of one domain, the user's raw volumes included, have different tags if and only if the raw tags differ from one another and from every tag the program makes up. |
| DiskSpecs.ProcessDiskFiles | crates/kit/src/run_ephemeral.rs:1059-1085 | The loop over the specifications, ended by the first unsupported format. |
| DiskSpecs.SpecReadBack | crates/kit/src/run_ephemeral.rs:1060-1085 | A specification composed of a file, a name and a format is read back as these; without a name it is output, without a format the extension decides, and an unknown format is the error. |
| DiskSpecs.SpecForms | crates/kit/src/run_ephemeral.rs:1060-1085 | Every specification has one of those three forms. |
| DiskSpecs.SpecsInOrder | crates/kit/src/run_ephemeral.rs:1059-1085 | All disks in the order of their specifications if every one is good, otherwise the first bad one is the error. |
| DiskSpecs.NamesHaveNoColon | crates/kit/src/run_ephemeral.rs:1059-1085 | No accepted disk name holds a colon. |
| DiskSpecs.ParseDiskFiles | crates/kit/src/run_ephemeral.rs:1914-1969 | The loop in the container over the parts of the variable, ended by the first disk file that is not there. |
| DiskSpecs.EntryForms | crates/kit/src/run_ephemeral.rs:1920-1945 | A part of the variable is read back by its form; an unknown or missing format falls back to the extension, a part without a name is skipped. |
| DiskSpecs.RecoveredDevices | crates/kit/src/run_ephemeral.rs:1914-1969 | The loop gives all devices in order if every file is there; otherwise it names the first device whose file is missing. |
| DiskSpecs.DisksSurvive | crates/kit/src/run_ephemeral.rs:1017-1032 | With the disk files mounted under their names, the container recovers the same paths, names and formats in order if and only if no name holds a comma. |
| VirshRetry.OutputWithRetry | crates/kit/src/libvirt/virsh.rs:134-155 | In every world in which it ends at all, it returns the first attempt that is no transient failure or ended at or after the deadline. |
| VirshRetry.StopsExactly | crates/kit/src/libvirt/virsh.rs:134-155 | The loop ends in every world if and only if the first delay is positive. |
| VirshRetry.BackoffDoubles | crates/kit/src/libvirt/virsh.rs:150-152 | Delay n is the smaller of the first delay times 2 to the n and four seconds. |
| VirshRetry.AtMostTwentyAttempts | crates/kit/src/libvirt/virsh.rs:31-40 | With the shipped constants there are at most 20 attempts, however slow the system is. |
| VirshRetry.TwentyAttemptsReached | crates/kit/src/libvirt/virsh.rs:31-40 | And 20 are made when every attempt fails at once. |
| KernelSearch.FindKernel | crates/kit/src/kernel.rs:72-118 | The search with its early errors, over the loops of the four finders. |
| KernelSearch.OrderIrrelevant | crates/kit/src/kernel.rs:122-298 | Listing any directory in another order, at both levels, changes neither the kernel found nor whether the search fails. |
| KernelSearch.FoundIsSoleBest | crates/kit/src/kernel.rs:72-118 | A kernel is found if and only if every aboot artifact is readable and the kernel is all there is in the best non-empty tier. |
| KernelSearch.FoundIsListed | crates/kit/src/kernel.rs:72-298 | An aboot artifact wins over a unified image and that over a traditional kernel; what is found consists of files the image lists, named and typed as the tier asks, and is the only one of its kind; nothing is found if and only if there is nothing of any kind. |
| KernelSearch.BadAbootExact | crates/kit/src/kernel.rs:122-165 | The search ends early if and only if a file named as an aboot artifact has other first bytes or too few. |
| KernelSearch.SoleAbootFound | crates/kit/src/kernel.rs:72-165 | An aboot artifact that is the only one is found, whatever else the image holds. |
| KernelSearch.SoleEspUkiFound | crates/kit/src/kernel.rs:92-201 | A unified image that is the only one and lies with the boot loader is found when there is no aboot artifact. |
| KernelSearch.SoleModuleUkiFound | crates/kit/src/kernel.rs:92-250 | The same for one among the modules. |
| KernelSearch.SoleKernelFound | crates/kit/src/kernel.rs:104-298 | The only traditional kernel is found, with its initial file system, when there is nothing better. |

## Left out

- Process spawning, podman, virsh, SSH, vsock and signals: outside effects, present only as steps that work or fail.
- `crates/kit/src/libvirt/rm_all.rs`: choosing the VMs by label and asking for confirmation.
- `run --replace`: it is a removal followed by a run, two commands of a history.
- Prune beside a running clone: checking and deleting are two steps there, so references are claimed for sequential prune only. Beside a running create, prune is one of the deletions that `BaseDiskCreators` allows at any time.
- Requests that share a short hash, beyond the one lemma that shows what happens.
- Escaping in XML text and attributes, comments and declarations: these are the work of the XML library. Other event kinds are ignored by the parser model as by the parser.
- `QemuConfig::validate`, the machine type table and the choice of the QEMU binary: easy tables. `spawn` is modelled for a valid configuration.
- The SSH key of a domain: its base64 decoding is library code.
- The older control group hierarchy and the parsing of /proc/meminfo: one file read each; the budget theorem takes any group limit.
- Host paths in disk specifications and bind mounts: checking them, making them absolute and creating missing disk files.
- Qemu.QemuConfig.Spawn: file numbers are unbounded, since 32 bits only matter beyond four thousand million files.
- VirshRetry.OutputWithRetry: how an error message is recognised as transient is left to the caller; a world in which the loop never ends is excluded, and StopsExactly says which first delays admit one.
- ManFormat.FormatOptionsAsMarkdown: capitalising a positional argument's name is left to the caller.
- VmNames.GenerateUniqueVmName: which characters count as letters or digits is a parameter; the counter is unbounded.
- Resources.DetectCgroupV2: a path is its components, so a group path with `..` in it is not resolved.
