# Corvid test-instance lifecycle and host-management scripts, in Dafny

This project models the operational scripts of the Corvid repository. Most of it covers
the two scripts that manage a test web instance named `<prefix>.aopstest.com`:

- `create-new-test-instance.py` clones the Terramate and Ansible repositories, creates and
  applies a Terraform stack, adds the host to the Ansible inventory and to `emails.yml`,
  runs two playbooks and imports a database.
- `destroy-test-instance.py` destroys the stack, removes the stack directory, removes the
  host from both YAML files, and commits and pushes the change.

It also models the host-management helpers built around them:

- `show-instances.py`, `find-ec2.py` and `find-ec2-minimal.py` list and filter EC2
  instances;
- `install-teleport-on-hosts.py`, `reload-teleport-on-hosts.py` and `inject-ssh-keys.py`
  act on each listed host;
- `list-aws-profiles.py` lists the administrator profiles;
- `add-tags-wizard.py` and `enable-tags-imds.py` edit instances.

Every external program (git, terramate, terraform, ansible-playbook, yq, ssh, tsh,
`assume`, play) and every AWS call is an oracle passed in as a parameter. The model states
what the scripts do with the answers.

- **Shell runs** (`shell.dfy`). A command is a `Cmd` (argv and working directory). A plan
  is a sequence of `Step(cmd, checked)`. `Executed(plan, exitOf, t)` is the list of
  commands that run: every command up to and including the first checked command whose
  exit status is non-zero. That is where `run(..., check=True)` raises and the script's
  `except` ends the run. The class `Shell.Machine` holds the state the scripts change:
  - the trace of commands run so far;
  - the set of paths present on disk;
  - the files written.

  Each stage method appends exactly `Executed(plan)` to the trace. Lemmas chain the stages
  and show that a failed stage stops everything after it.
- **Creating an instance** (`lifecycle.dfy`, `create_instance.dfy`):
  - the hostname and stack path;
  - cloning when the checkouts are absent;
  - the stack plan, whose git commit is `check=False`, and whose template read fails (so the
    run exits 1 after `terramate create`) when `main.tf` must be written and the template
    file is missing;
  - the inventory text edit, which inserts `<indent+2 spaces><host>:\n` after the first
    line that strips to `hosts:`;
  - the email map;
  - `InventoryManager`, a class whose methods update the inventory text and the email map.

  Proved: what each stage does to the trace and to disk, that `ensure_host` is idempotent
  on both files, and that a failed infrastructure stage leaves the inventory untouched.
- **Destroying an instance** (`destroy_instance.dfy`):
  - the prefix check;
  - `terraform destroy`, skipped when the stack is absent;
  - the `rmtree` of the stack directory;
  - the yq `has`/`del` removal from each YAML file;
  - the commit, which runs only when something was removed.
- **Listing and filtering** (`show_instances.dfy`, `find_ec2.dfy`, `find_ec2_minimal.dfy`):
  - sort-column choice;
  - row construction with `N/A` defaults and the first `Name` tag;
  - case-insensitive highlighting, which keeps the text and marks the leftmost
    non-overlapping matches;
  - the comma-list search terms;
  - the CSV line filter that prefixes the account;
  - the profile limit;
  - US-region discovery;
  - the sort, which gives a sorted permutation.
- **Per-host actions** (`install_teleport.dfy`, `reload_teleport.dfy`,
  `inject_ssh_keys.dfy`):
  - the `find-ec2` call that gives the hosts, with its reply as a parameter;
  - the CSV host parse, with a round trip;
  - the installer's argv and options, with a round trip;
  - success counting;
  - the per-user retry loops, where the first success wins and otherwise the last
    diagnostic is reported, and where an empty existing-key path counts as none;
  - ANSI stripping and error-message rules;
  - the exclusion patterns;
  - the host tallies and per-user counts.
- **Editing instances** (`add_tags_wizard.dfy`, `enable_tags_imds.dfy`,
  `list_aws_profiles.dfy`):
  - the numbered selection prompt;
  - the `key=value` tag prompt, where the last value wins;
  - grouping by region with success and error counts;
  - the region search for an instance;
  - the IMDS-tags enable step;
  - the profile-header scan.

Shared text functions (`text.dfy`) model Python's `strip`, `lower`, `find`, `in`,
`replace`, `split`, `join` and `splitlines` on `seq<char>`. `lists.dfy` holds the limit,
the order-preserving de-duplication (dictionary insertion order) and the first match.

Where the repository's own description and its code differ, the model follows the code:

- `remove_host` (`destroy-test-instance.py:245-259`) returns nothing. The per-file
  removers return whether they removed the host. So `DestroyInstance.InventoryManager.RemoveHost`
  returns only whether its commands succeeded.
- `ensure_host` (`create-new-test-instance.py:274-283`) always runs `git add`,
  `git commit` (with `check=False`) and `git push origin simple`. It does so even when
  neither file changed. A repeated call therefore still issues a commit, which fails
  harmlessly. The push always targets the branch `simple`, whatever
  `ANSIBLE_CFG_BRANCH` says.

The two scripts do not add and remove a host in the same place of `inventory.yml`:

- Create inserts the entry under the first line that strips to `hosts:`, at whatever depth
  that line sits (`create-new-test-instance.py:254-258`, `CreateInstance.FirstHostsLine`,
  `CreateInstance.InsertHostLine`).
- Destroy asks for and deletes only `.all.hosts."<host>"` (`destroy-test-instance.py:216-219`,
  `DestroyInstance.RemovalPlan` with `DestroyInstance.InventoryKey`).

`CreateInstance.KeyPath` reads a block-style YAML line's place in the tree from its
indentation. `CreateInstance.EntryPath` proves that the new entry's path is the first
`hosts:` line's path plus the host. So the host lands at `all.hosts.<host>` exactly when the
first `hosts:` line is the `hosts` key of `all`. `CreateInstance.GroupFirstInventoryMissed`
shows an inventory, at any indentation width, whose `all:` mapping lists a child group
`web` with its own `hosts:` before its own `hosts:`. There the host goes to
`all.children.web.hosts`, where the destroy script's `has` query does not look, so a
destroyed instance stays in the inventory.

## Model

| member | source | states |
|---|---|---|
| Shell.Machine.Run | miscellaneous/create-new-test-instance.py:84-128 | one run appends the command to the trace, its status is the oracle's, and it raises exactly when checked and non-zero |
| Shell.Machine.RunPlan | miscellaneous/create-new-test-instance.py:84-128 | running a plan appends exactly the commands up to the first checked failure and succeeds iff no checked command failed |
| Shell.Machine.RunStep | miscellaneous/create-new-test-instance.py:84-128 | a single step is run as a one-step plan |
| Shell.Executed | miscellaneous/create-new-test-instance.py:118-119 | the commands that run are never more than the plan |
| Shell.ExecutedPrefix | miscellaneous/create-new-test-instance.py:118-119 | the commands run are a prefix of the plan: all of it when nothing aborts, otherwise ending with a checked command whose status is non-zero |
| Shell.ExecutedLength | miscellaneous/create-new-test-instance.py:118-119 | a plan that does not abort runs every one of its commands |
| Shell.AbortsAppend | miscellaneous/create-new-test-instance.py:378-383 | two stages in sequence abort iff the first aborts or the second aborts after it |
| Shell.ExecutedAppend | miscellaneous/create-new-test-instance.py:378-383 | the second of two stages runs only when the first did not abort |
| Shell.StopsAfterAbort | miscellaneous/create-new-test-instance.py:378-383 | once a stage aborts, no command of a later stage runs |
| Shell.Advance | miscellaneous/create-new-test-instance.py:321-377 | after a stage that succeeds, the rest of the run continues from the extended trace |
| Shell.Then | miscellaneous/create-new-test-instance.py:321-377 | a stage that succeeds followed by the rest runs as the two stages in sequence, with the same outcome |
| Shell.Halt | miscellaneous/create-new-test-instance.py:378-383 | after a stage that aborts, the trace ends with that stage's commands |
| Shell.UncheckedNeverAborts | miscellaneous/create-new-test-instance.py:375-377 | a plan of `check=False` commands never aborts, whatever their statuses |
| Shell.OnlyCheckedCodesMatter | miscellaneous/create-new-test-instance.py:118-119 | the exit statuses of unchecked commands change neither the abort nor the trace |
| Shell.Commands | miscellaneous/create-new-test-instance.py:84-128 | the command list of a plan, step by step |
| Shell.GetEnv | miscellaneous/create-new-test-instance.py:54-59 | a set variable gives its value, even empty, and an unset one the default |
| Shell.EnvOr | miscellaneous/create-new-test-instance.py:325-326 | `os.environ.get(X) or default`: a set non-empty value wins, otherwise the default |
| Shell.TimeLabel | miscellaneous/create-new-test-instance.py:143-147 | the elapsed-time label ends in `s` and has a minutes part iff at least 60 seconds elapsed |
| Shell.NoLetterInDigits | miscellaneous/create-new-test-instance.py:143-147 | a seconds-only label holds no `m` |
| Shell.TimeLabelRoundTrip | miscellaneous/create-new-test-instance.py:143-147 | the label reads back as the elapsed seconds (minutes times 60 plus seconds) |
| Shell.StepReport | miscellaneous/create-new-test-instance.py:134-150 | debug mode prints no step line; otherwise the line starts with `[<label>] ` |
| Lifecycle.Hostname | miscellaneous/create-new-test-instance.py:303 | the hostname is the prefix followed by the domain |
| Lifecycle.PrefixOf | miscellaneous/create-new-test-instance.py:303 | a prefix recovered from a hostname is shorter by the domain |
| Lifecycle.HostnamePrefix | miscellaneous/create-new-test-instance.py:303 | stripping `.aopstest.com` from the hostname gives the prefix back |
| Lifecycle.HostnameInjective | miscellaneous/create-new-test-instance.py:303 | distinct prefixes give distinct hostnames |
| Lifecycle.StackPath | miscellaneous/create-new-test-instance.py:331-332 | the stack directory is the checkout, the account path and the hostname |
| Lifecycle.StackArgResolves | miscellaneous/create-new-test-instance.py:190-191 | the relative path given to `terramate create` names the stack directory |
| Lifecycle.StackPathInjective | miscellaneous/create-new-test-instance.py:331-332 | distinct hostnames get distinct stack directories in one checkout |
| Lifecycle.ResolveWorkspaces | miscellaneous/create-new-test-instance.py:308-326 | both checkout paths are non-empty |
| Lifecycle.DefaultClonesDistinct | miscellaneous/create-new-test-instance.py:325-326 | without overrides the two checkouts are different directories |
| Lifecycle.EmptyOverrides | miscellaneous/create-new-test-instance.py:308-326 | in every environment, an empty repository or branch variable is used as it is, and an empty clone-path variable falls back to the `/tmp` default |
| Lifecycle.ClonesPresent | miscellaneous/create-new-test-instance.py:327-330 | after the clone stage both checkouts exist and nothing present was lost |
| Lifecycle.CloneCached | miscellaneous/create-new-test-instance.py:327-330 | when both checkouts exist, nothing is cloned and nothing changes |
| Lifecycle.ClonedPresentFacts | miscellaneous/create-new-test-instance.py:327-330 | the clone stage only adds paths, and when it does not raise it leaves exactly both checkouts added |
| Lifecycle.CloneTerramate | miscellaneous/create-new-test-instance.py:160-162 | one checked `git clone`; the checkout and its files are present exactly when the clone exits 0, and nothing changes otherwise |
| Lifecycle.CloneAnsible | miscellaneous/create-new-test-instance.py:166-169 | clone then checkout of the branch, both checked; the checkout is present exactly when the clone exits 0, even if the checkout then fails |
| Lifecycle.CloneRepos | miscellaneous/create-new-test-instance.py:327-330 | clones only the missing checkouts; the paths afterwards are those of the clones that succeeded, on every path |
| Lifecycle.SoundPlan | miscellaneous/create-new-test-instance.py:375-377 | every sound command is unchecked |
| Lifecycle.SoundsNeverAbort | miscellaneous/create-new-test-instance.py:375-377 | appending the sounds never makes a run fail |
| Lifecycle.PlaySounds | miscellaneous/create-new-test-instance.py:375-377 | all sound commands are run in order |
| Lifecycle.SoundsAllRun | miscellaneous/create-new-test-instance.py:375-377 | every sound command runs whatever its status |
| CreateInstance.Configure | miscellaneous/create-new-test-instance.py:299-326 | the hostname comes from the prefix, CI is the flag or a set `CI` variable, and the checkouts are resolved from the environment |
| CreateInstance.FirstHostsLine | miscellaneous/create-new-test-instance.py:254-256 | the index of the first `hosts:` line is at most the number of lines |
| CreateInstance.FirstHostsLineFacts | miscellaneous/create-new-test-instance.py:254-256 | the found line strips to `hosts:` and no earlier line does |
| CreateInstance.NoHostsLineIff | miscellaneous/create-new-test-instance.py:254-256 | the search runs off the end iff no line strips to `hosts:` |
| CreateInstance.FirstHostsLineScan | miscellaneous/create-new-test-instance.py:254-256 | while scanning up to the first `hosts:` line, a line matches iff it is that line |
| CreateInstance.Spaces | miscellaneous/create-new-test-instance.py:258 | the indentation is that many spaces |
| CreateInstance.HostEntry | miscellaneous/create-new-test-instance.py:257-258 | the entry has the line's indentation plus two spaces, the hostname, `:` and a newline |
| CreateInstance.EntryNamesHost | miscellaneous/create-new-test-instance.py:258 | the inserted entry contains `<hostname>:` |
| CreateInstance.InsertAfterKeeps | miscellaneous/create-new-test-instance.py:254-259 | inserting after line k keeps every original line in order and adds one line |
| CreateInstance.InsertKeepsLines | miscellaneous/create-new-test-instance.py:250-260 | the edit adds exactly one line, the entry, right after the first `hosts:` line, and keeps all others |
| CreateInstance.NoHostsLineUnchanged | miscellaneous/create-new-test-instance.py:250-260 | with no `hosts:` line the inventory is written back unchanged |
| CreateInstance.ConcatInsertAfter | miscellaneous/create-new-test-instance.py:260 | joining the edited lines puts the entry between the text up to the `hosts:` line and the rest |
| CreateInstance.InsertedText | miscellaneous/create-new-test-instance.py:250-260 | the new text is the old text with the entry spliced in after the `hosts:` line, and it names the host |
| CreateInstance.GluedEntry | miscellaneous/create-new-test-instance.py:250-260 | when the `hosts:` line is the last line and lacks a newline, the entry is glued onto it |
| CreateInstance.EntryPath | miscellaneous/create-new-test-instance.py:254-258 | the entry becomes a child of the first `hosts:` line, and lies at `all.hosts.<host>` iff that line's path is `all.hosts` |
| CreateInstance.KeyPathPrefix | miscellaneous/create-new-test-instance.py:254-258 | a line's place in the YAML tree depends only on the lines up to it, so the insertion moves nothing above the entry |
| CreateInstance.GroupFirstInventoryMissed | miscellaneous/create-new-test-instance.py:254-258 | in an inventory with a child group's `hosts:` first, the host is put outside `all.hosts` although `all.hosts` exists |
| CreateInstance.InsertHostLoop | miscellaneous/create-new-test-instance.py:252-259 | the loop computes the line-level insertion |
| CreateInstance.EnsureInventoryIdempotent | miscellaneous/create-new-test-instance.py:274-277 | ensuring the host twice gives the same inventory as ensuring it once |
| CreateInstance.EnsureInventoryNamesHost | miscellaneous/create-new-test-instance.py:274-277 | with a `hosts:` line, the ensured inventory names the host |
| CreateInstance.SubstringPresence | miscellaneous/create-new-test-instance.py:276 | any text already containing `<hostname>:` (even inside another name) is left alone |
| CreateInstance.WithEmail | miscellaneous/create-new-test-instance.py:262-272 | the host gets the email only when it had none, and every other entry is kept |
| CreateInstance.WithEmailIdempotent | miscellaneous/create-new-test-instance.py:262-272 | a second add, with any email, changes nothing |
| CreateInstance.EnsureHostIdempotent | miscellaneous/create-new-test-instance.py:274-283 | a second `ensure_host` leaves both files as the first left them, and fails again exactly when the first failed |
| CreateInstance.InventoryManager.constructor | miscellaneous/create-new-test-instance.py:245-248 | the manager starts on the given checkout, inventory and emails |
| CreateInstance.InventoryManager.AddHostToInventory | miscellaneous/create-new-test-instance.py:250-260 | the inventory becomes the edited text; a missing file raises and changes nothing |
| CreateInstance.InventoryManager.AddEmailForHost | miscellaneous/create-new-test-instance.py:262-272 | returns whether the host was missing; the file is rewritten exactly then; a missing file, an empty document or a null `host_emails` raises and changes nothing |
| CreateInstance.InventoryManager.EnsureHost | miscellaneous/create-new-test-instance.py:274-283 | inventory and emails both ensured, then add/commit/push always run, with the commit unchecked; a missing inventory raises before any edit, an unusable email file raises after the inventory edit, and neither runs a git command |
| CreateInstance.RenderFillsPlaceholder | miscellaneous/create-new-test-instance.py:194-195 | the template's placeholder is replaced by the prefix and the rest is kept |
| CreateInstance.ApplyArgv | miscellaneous/create-new-test-instance.py:201-204 | `terraform apply` carries `-auto-approve` iff running in CI |
| CreateInstance.CommitFailureTolerated | miscellaneous/create-new-test-instance.py:196-198 | a failing stack commit changes neither the abort nor the commands run |
| CreateInstance.CreateAndApplyStack | miscellaneous/create-new-test-instance.py:189-205 | creates the stack only if absent, writes `main.tf` only if absent, then commit/push/init/apply; when `main.tf` is absent and the template file is missing, the stage fails right after `terramate create`, with no `main.tf` written and no git or terraform command run; the paths and files afterwards are stated on every path |
| CreateInstance.BuiltStackExists | miscellaneous/create-new-test-instance.py:321-344 | the first two stages only add paths; when they succeed (every checked command passes and no template read failed) the stack and its `main.tf` exist, and a new `main.tf` holds the rendered template, which was therefore present |
| CreateInstance.MissingTemplateNoApply | miscellaneous/create-new-test-instance.py:192-195 | with `main.tf` absent and the template file missing, the infrastructure stages run only the clones, checkouts and `terramate create`, never `terraform apply`; with the template present or not needed they run the full plan |
| CreateInstance.InfraProgramsOnly | miscellaneous/create-new-test-instance.py:321-344 | the infrastructure stages run only git, terramate and terraform |
| CreateInstance.InfraFailureStopsProvisioning | miscellaneous/create-new-test-instance.py:321-383 | a failed infrastructure stage ends the run before any ansible, yq or database command |
| CreateInstance.BuildInfra | miscellaneous/create-new-test-instance.py:321-344 | clones then the stack, stopping at the first failure, a missing template file included; it succeeds iff no checked command failed and no template read failed; the paths and files afterwards are those of the clone and stack stages as far as they got |
| CreateInstance.ConfigureHost | miscellaneous/create-new-test-instance.py:347-377 | ensures the host in both files, runs both playbooks, imports the database and plays sounds; with a file missing or unusable it stops before any command |
| CreateInstance.Provision | miscellaneous/create-new-test-instance.py:299-386 | exit 1 iff a checked command failed, the template file is missing when `main.tf` must be written (the run then stops after `terramate create`), or, after the infrastructure stages, an inventory file is missing or unusable; the inventory changes only when the infrastructure stages succeed; the final paths and files are stated |
| DestroyInstance.ValidPrefixIff | miscellaneous/destroy-test-instance.py:284-286 | a prefix is accepted iff it holds only letters, digits, `-` and `_` and at least one letter or digit |
| DestroyInstance.ValidPrefixSafe | miscellaneous/destroy-test-instance.py:284-286 | an accepted prefix gives a hostname with no `"` and no `/` |
| DestroyInstance.RemoveTreeKeepsClone | miscellaneous/destroy-test-instance.py:180 | removing the stack tree removes the stack and keeps the checkout |
| DestroyInstance.DestroyStack | miscellaneous/destroy-test-instance.py:170-188 | destroys only an existing stack, and removes its tree, paths and files, only after the destroy succeeded |
| DestroyInstance.RemovalEffect | miscellaneous/destroy-test-instance.py:209-225 | removal only ever drops the host, and drops it when yq found it |
| DestroyInstance.YqRemove | miscellaneous/destroy-test-instance.py:209-225 | `has` is asked first and `del` runs only when it answers true |
| DestroyInstance.NoChangeNoCommit | miscellaneous/destroy-test-instance.py:245-259 | when neither file names the host, only the `has` queries run and nothing is committed |
| DestroyInstance.InventoryManager.constructor | miscellaneous/destroy-test-instance.py:204-207 | the manager starts on the given checkout and key sets |
| DestroyInstance.InventoryManager.RemoveHostFromInventory | miscellaneous/destroy-test-instance.py:209-225 | returns whether the host was removed from `.all.hosts` |
| DestroyInstance.InventoryManager.RemoveEmailForHost | miscellaneous/destroy-test-instance.py:227-243 | returns whether the host was removed from `.host_emails` |
| DestroyInstance.RemoveHostOnlyRemovesHost | miscellaneous/destroy-test-instance.py:245-259 | whatever fails, each file loses at most the host, and a missing file stays missing |
| DestroyInstance.InventoryManager.RemoveHost | miscellaneous/destroy-test-instance.py:245-259 | removes from both files, and commits and pushes only when one changed; both files' keys are stated on every path, a failed inventory removal leaving the email file untouched |
| DestroyInstance.AbsentStackSkipped | miscellaneous/destroy-test-instance.py:170-173 | with no stack directory the teardown only clones |
| DestroyInstance.InfraDownRemovesStack | miscellaneous/destroy-test-instance.py:170-188 | when the first two stages succeed the stack directory and every file below it are gone and the Terramate checkout remains |
| DestroyInstance.InfraDown | miscellaneous/destroy-test-instance.py:302-325 | clones, then tears the stack down, stopping at the first failure; the paths and files afterwards are stated on every path |
| DestroyInstance.CleanInventory | miscellaneous/destroy-test-instance.py:328-344 | removes the host from the inventory, then plays the sounds; both files' keys afterwards are stated |
| DestroyInstance.TearDown | miscellaneous/destroy-test-instance.py:302-351 | the whole run is the teardown followed by the cleanup, stopping at the first failure; paths, files and both key sets afterwards are stated, the key sets unchanged when the teardown fails |
| DestroyInstance.Decommission | miscellaneous/destroy-test-instance.py:275-354 | an invalid prefix or a missing Cloudflare token exits 1 before any command and changes nothing; otherwise exit 1 iff a checked command failed, with the final paths, files and key sets stated |
| Ec2.OrElse | host-management/scripts/find-ec2-minimal.py:170-174 | a missing or empty field becomes the default |
| Ec2.NameTagFirst | host-management/scripts/show-instances.py:68-73 | the name is the value of the first `Name` tag, else the default |
| ShowInstances.FirstColumn | host-management/scripts/show-instances.py:116-119 | the first answer that names a column is chosen |
| ShowInstances.SortColumn | host-management/scripts/show-instances.py:102-130 | no flag sorts by region, a known column is used, and an unknown one is rejected |
| ShowInstances.RowOf | host-management/scripts/show-instances.py:68-83 | a row carries the id, region and state, each present IP and key name as given, `N/A` for each missing field, and the name of the first `Name` tag (`N/A` without one) |
| ShowInstances.RowsOfFacts | host-management/scripts/show-instances.py:74-83 | one row per instance, in order |
| ShowInstances.RegionRowsFacts | host-management/scripts/show-instances.py:65-85 | one row for each instance of each reservation, all in the region |
| ShowInstances.InstancesInRegion | host-management/scripts/show-instances.py:59-91 | an API failure gives no rows |
| ShowInstances.AppendRows | host-management/scripts/show-instances.py:74-83 | the inner loop appends one row per instance of the reservation, in order |
| ShowInstances.HighlightMatches | host-management/scripts/show-instances.py:132-163 | no query, or no case-insensitive match, leaves the text as it is |
| ShowInstances.ScanMatches | host-management/scripts/show-instances.py:145-161 | the scan loop builds the plain and marked pieces |
| ShowInstances.Cut | host-management/scripts/show-instances.py:152-161 | the pieces are one plain and one marked piece per match and then the rest, two per match plus one |
| ShowInstances.MatchesNext | host-management/scripts/show-instances.py:147-158 | with a match after the cursor the scan finds it first and resumes just past it |
| ShowInstances.MatchesSpaced | host-management/scripts/show-instances.py:147-158 | the matches found lie in order inside the text, none before the cursor and none overlapping the previous one |
| ShowInstances.MatchesOccur | host-management/scripts/show-instances.py:148-156 | every position found is a case-insensitive occurrence of the query |
| ShowInstances.MatchesGaps | host-management/scripts/show-instances.py:147-158 | the scan misses no occurrence: none starts before the first match, between two matches, or after the last |
| ShowInstances.SegmentsNext | host-management/scripts/show-instances.py:148-158 | a successful search emits the text before the match and the match, then carries on after the match |
| ShowInstances.SegmentsLastPiece | host-management/scripts/show-instances.py:148-161 | once the search fails, the rest of the text is the one remaining piece |
| ShowInstances.CutText | host-management/scripts/show-instances.py:152-161 | the pieces spell out the text from the cursor on |
| ShowInstances.CutAlternates | host-management/scripts/show-instances.py:152-158 | cutting at occurrences alternates plain and marked pieces, each marked piece lower-casing to the query |
| ShowInstances.AlternatingPositions | host-management/scripts/show-instances.py:152-161 | marked pieces sit exactly at the odd positions, the last piece is plain, and each marked piece lower-cases to the query |
| ShowInstances.SegmentsAlternate | host-management/scripts/show-instances.py:147-161 | the scan gives two pieces per match plus one, alternating plain and marked |
| ShowInstances.NoMatchBeforeIff | host-management/scripts/show-instances.py:148 | no match starting in the first `m` characters is the same as no occurrence in `[0, m)` of the lower-cased text |
| ShowInstances.CutClean | host-management/scripts/show-instances.py:148-158 | with no occurrence in the gaps, no plain piece holds the start of a match, not even one running into the next piece |
| ShowInstances.CutTailClean | host-management/scripts/show-instances.py:149-161 | with no occurrence after the last match, the last piece holds none |
| ShowInstances.CleanPairsPositions | host-management/scripts/show-instances.py:152-158 | the clean-pairs property, position by position |
| ShowInstances.SegmentsClean | host-management/scripts/show-instances.py:147-161 | the plain pieces of the scan hold no match, the last one included |
| ShowInstances.PiecesNone | host-management/scripts/show-instances.py:147-161 | the same, stated on the lower-cased text of each plain piece and its successor |
| ShowInstances.SegmentsText | host-management/scripts/show-instances.py:145-161 | the pieces from a position spell the text from there |
| ShowInstances.HighlightKeepsText | host-management/scripts/show-instances.py:132-163 | highlighting never changes the displayed characters |
| ShowInstances.SegmentsMarked | host-management/scripts/show-instances.py:148-158 | pieces alternate plain and marked, the last is plain, and each marked piece equals the query ignoring case |
| ShowInstances.SegmentsLeftmost | host-management/scripts/show-instances.py:148-158 | each marked match is the leftmost one after the previous match |
| FindEc2.EmptyTermMatchesAll | host-management/scripts/find-ec2.py:104-105 | an empty term (as from a trailing comma) matches every line |
| FindEc2.AnyTermIn | host-management/scripts/find-ec2.py:104-105 | a line matches iff some term occurs in its lower-cased text |
| FindEc2.FilterLineKept | host-management/scripts/find-ec2.py:98-111 | a line is kept iff it is not the header, matches a term and has at least seven fields |
| FindEc2.FilterLineFields | host-management/scripts/find-ec2.py:107-111 | a kept line is the account followed by the line's fields after the first |
| Lists.FilterMap | host-management/scripts/find-ec2.py:98-112 | keeping the mapped lines that pass never lengthens the list |
| Lists.FilterMapAppend | host-management/scripts/find-ec2.py:98-112 | filtering commutes with concatenation |
| Lists.FilterMapMember | host-management/scripts/find-ec2.py:98-112 | an output is in the result iff some input maps to it |
| FindEc2.FilterLinesAppend | host-management/scripts/find-ec2.py:98-112 | filtering commutes with concatenating outputs |
| FindEc2.FilterLinesMember | host-management/scripts/find-ec2.py:98-112 | an output line comes from some input line kept under that account |
| FindEc2.FilterOutput | host-management/scripts/find-ec2.py:96-112 | the loop filters every line of the output |
| FindEc2.ShowCommand | host-management/scripts/find-ec2.py:83-87 | `assume <account> --exec -- python <script>`, plus `--sort <col>` iff a non-empty sort is given |
| FindEc2.RunShowInstances | host-management/scripts/find-ec2.py:68-119 | a failed or raising run contributes no lines |
| FindEc2.Profiles | host-management/scripts/find-ec2.py:31-66 | profiles are stripped, non-empty, at most the limit, and none on failure |
| FindEc2.ProfilesMember | host-management/scripts/find-ec2.py:51-55 | a profile is a stripped non-empty line of the listing, and without a limit every such line is one |
| FindEc2.RunAccounts | host-management/scripts/find-ec2.py:141-146 | the accounts' lines are concatenated in account order |
| FindEc2.FindInstances | host-management/scripts/find-ec2.py:121-146 | no profiles exit 1; otherwise the header, then every kept line |
| FindEc2Minimal.SearchTerms | host-management/scripts/find-ec2-minimal.py:193 | terms are the non-empty stripped lower-cased parts |
| FindEc2Minimal.SearchTermsOfItems | host-management/scripts/find-ec2-minimal.py:193 | joining clean words with commas gives back their lower-cased forms |
| FindEc2Minimal.NoTermsNoRows | host-management/scripts/find-ec2-minimal.py:176-178 | a search of only commas and blanks matches no row |
| FindEc2Minimal.PartInside | host-management/scripts/find-ec2-minimal.py:193 | every character of a part comes from the search |
| FindEc2Minimal.PartInJoin | host-management/scripts/find-ec2-minimal.py:177 | every character of a field occurs in the joined row |
| FindEc2Minimal.NoneLeft | host-management/scripts/find-ec2-minimal.py:193 | blank parts give no terms |
| FindEc2Minimal.RowOf | host-management/scripts/find-ec2-minimal.py:166-175 | eight columns: profile, id, region, public and private IP, state, first `Name` tag, key name, each absent or empty attribute as `""` |
| FindEc2Minimal.KeptRowsFacts | host-management/scripts/find-ec2-minimal.py:165-178 | kept rows match a term and belong to this profile and region |
| FindEc2Minimal.Profiles | host-management/scripts/find-ec2-minimal.py:35-41 | the first `limit` profiles when the limit is positive, else all |
| FindEc2Minimal.AllRegions | host-management/scripts/find-ec2-minimal.py:43-55 | exactly the `us-` regions; none on a credential failure; `us-east-1` on another failure |
| FindEc2Minimal.UsRegions | host-management/scripts/find-ec2-minimal.py:48-49 | exactly the region names starting with `us-` |
| FindEc2Minimal.DiscoverRegions | host-management/scripts/find-ec2-minimal.py:112-142 | the profiles with regions, in first-seen order, each mapped to its regions; the pair total counts them all |
| FindEc2Minimal.Record | host-management/scripts/find-ec2-minimal.py:121-139 | storing a profile's regions adds it to the key order when new and keeps the keys those of the order |
| FindEc2Minimal.RegionMapOf | host-management/scripts/find-ec2-minimal.py:156-158 | the dictionary built is the map from each kept profile to its regions |
| FindEc2Minimal.DedupCount | host-management/scripts/find-ec2-minimal.py:136-139 | the pair total is at least the count over distinct profiles, and equal when none repeats |
| FindEc2Minimal.ProfilePairs | host-management/scripts/find-ec2-minimal.py:156-184 | at most one pair per region, and all of them when no credential failure stops the profile |
| FindEc2Minimal.ProfileCrashesIff | host-management/scripts/find-ec2-minimal.py:156-184 | a profile's scan crashes iff one of the regions it reaches fails with an exception other than `ClientError`, `ProfileNotFound` or `CredentialRetrievalError` |
| FindEc2Minimal.ScanProfile | host-management/scripts/find-ec2-minimal.py:156-184 | the loop reports a crash exactly when a reached region raises an uncaught exception, and otherwise collects the profile's rows and counts its pairs |
| FindEc2Minimal.ProfileUnfold | host-management/scripts/find-ec2-minimal.py:158-183 | an uncaught exception in a region crashes the run; a credential failure ends that profile after its rows |
| FindEc2Minimal.DiscoverInstances | host-management/scripts/find-ec2-minimal.py:144-187 | crashes exactly when some profile's scan raises an uncaught exception; otherwise the rows of every profile in order, and the pairs visited |
| FindEc2Minimal.PairsWithinTotal | host-management/scripts/find-ec2-minimal.py:156-159 | the pairs visited never exceed the announced total |
| FindEc2Minimal.PairsWithinRegions | host-management/scripts/find-ec2-minimal.py:156-159 | the pairs visited never exceed the regions counted for the profiles |
| FindEc2Minimal.LexLeTotal | host-management/scripts/find-ec2-minimal.py:203 | string order is total |
| FindEc2Minimal.LexLeTrans | host-management/scripts/find-ec2-minimal.py:203 | string order is transitive |
| FindEc2Minimal.LexLeAntisym | host-management/scripts/find-ec2-minimal.py:203 | string order is antisymmetric |
| FindEc2Minimal.Insert | host-management/scripts/find-ec2-minimal.py:203 | inserting adds exactly that row |
| FindEc2Minimal.SortRows | host-management/scripts/find-ec2-minimal.py:201-203 | sorting keeps exactly the same rows |
| FindEc2Minimal.InsertSorted | host-management/scripts/find-ec2-minimal.py:203 | inserting into sorted rows keeps them sorted |
| FindEc2Minimal.SortRowsSorted | host-management/scripts/find-ec2-minimal.py:201-203 | the result is sorted by the column and a permutation |
| FindEc2Minimal.ColumnIndex | host-management/scripts/find-ec2-minimal.py:202 | the index of the first column with that name |
| FindEc2Minimal.RegionMap | host-management/scripts/find-ec2-minimal.py:134-139 | every profile in the order has an entry |
| FindEc2Minimal.PrintRows | host-management/scripts/find-ec2-minimal.py:204-206 | one comma-joined line per row, in order |
| FindEc2Minimal.DiscoverAll | host-management/scripts/find-ec2-minimal.py:199-200 | region discovery then instance discovery crash exactly when a listing raises an uncaught exception, and otherwise give exactly the rows found for the profiles |
| FindEc2Minimal.NoUncaughtNoCrash | host-management/scripts/find-ec2-minimal.py:179-184 | when no listing raises an uncaught exception the run does not crash |
| FindEc2Minimal.Report | host-management/scripts/find-ec2-minimal.py:201-208 | the same rows, sorted by the column when one is asked and in discovery order otherwise, printed after the header, with their count |
| FindEc2Minimal.FindInstances | host-management/scripts/find-ec2-minimal.py:189-212 | no profiles, or an uncaught exception during discovery, exit 1 with nothing printed; otherwise the header and the found rows, sorted when asked and in discovery order otherwise |
| InstallTeleport.HostOfLine | host-management/scripts/install-teleport-on-hosts.py:67-80 | a non-blank line with at least eight fields gives a host of its first eight fields, and only such a line does |
| InstallTeleport.HeaderOnly | host-management/scripts/install-teleport-on-hosts.py:64-66 | output with only a header line gives no hosts |
| InstallTeleport.HostLineRoundTrip | host-management/scripts/install-teleport-on-hosts.py:67-80 | a host written as a CSV line parses back to itself |
| InstallTeleport.HostsRoundTrip | host-management/scripts/install-teleport-on-hosts.py:64-80 | a list of hosts written as lines parses back to the same list |
| InstallTeleport.GetHosts | host-management/scripts/install-teleport-on-hosts.py:62-83 | the loop parses every line after the header |
| InstallTeleport.GetHostsCommand | host-management/scripts/install-teleport-on-hosts.py:56-58 | `--search <filter>`, plus `--limit n` iff a non-zero limit is given |
| InstallTeleport.OptionArgsRoundTrip | host-management/scripts/install-teleport-on-hosts.py:112-122 | the option flags read back as the same options |
| InstallTeleport.ReadDebugStep | host-management/scripts/install-teleport-on-hosts.py:118-122 | the debug and skip flags read back |
| InstallTeleport.ReadForceStep | host-management/scripts/install-teleport-on-hosts.py:116-117 | the force flag reads back |
| InstallTeleport.InstallCommand | host-management/scripts/install-teleport-on-hosts.py:102-122 | role, id, region, IP, name and key in order, then the option flags |
| InstallTeleport.Installed | host-management/scripts/install-teleport-on-hosts.py:146-150 | a host succeeds iff the installer exits 0 |
| InstallTeleport.DebugRunNeverSucceeds | host-management/scripts/install-teleport-on-hosts.py:140-154 | in debug mode the host counts as failed even when the installer exits 0 |
| InstallTeleport.Successes | host-management/scripts/install-teleport-on-hosts.py:175-206 | never more successes than hosts; counts with the corrected `Installed` (see Left out) |
| InstallTeleport.SuccessesAsWritten | host-management/scripts/install-teleport-on-hosts.py:140-154 | the count the script as written reports, never more than the hosts |
| InstallTeleport.AsWrittenSuccesses | host-management/scripts/install-teleport-on-hosts.py:140-154 | the script as written reports no success in debug mode, and otherwise the same count as `Successes` |
| InstallTeleport.InstallAll | host-management/scripts/install-teleport-on-hosts.py:175-206 | successes and failures add up to the hosts, and the successes are those whose installer exits 0, with the debug-mode fault corrected (see Left out) |
| InstallTeleport.FindHosts | host-management/scripts/install-teleport-on-hosts.py:45-90 | a missing `find-ec2` script gives no hosts; otherwise the hosts are those parsed from the reply to `GetHostsCommand` for the filter and limit |
| InstallTeleport.InstallOnHosts | host-management/scripts/install-teleport-on-hosts.py:156-216 | the hosts are those `find-ec2` returns for the filter and limit (`GetHostsCommand`); a missing key or no hosts exits 1; otherwise the summary counts every host, its successes by the corrected `Successes` (see Left out) |
| InjectSshKeys.DefaultPatternsRoundTrip | host-management/scripts/inject-ssh-keys.py:338-340 | the default option string parses back to the default patterns |
| InjectSshKeys.ShouldExclude | host-management/scripts/inject-ssh-keys.py:369-378 | excluded iff the name is missing or `N/A`, or contains a pattern ignoring case |
| InjectSshKeys.EmptyPatternExcludesAll | host-management/scripts/inject-ssh-keys.py:375-377 | an empty pattern excludes every host |
| InjectSshKeys.CodeEnd | host-management/scripts/inject-ssh-keys.py:71 | the run of digits and `;` ends at the first other character |
| InjectSshKeys.CodeRun | host-management/scripts/inject-ssh-keys.py:71 | the end of a code run is where its digits stop |
| InjectSshKeys.StripAnsi | host-management/scripts/inject-ssh-keys.py:71 | removing colour codes never lengthens the text |
| InjectSshKeys.StripAnsiPlain | host-management/scripts/inject-ssh-keys.py:71 | text without escapes is unchanged |
| InjectSshKeys.AfterText | host-management/scripts/inject-ssh-keys.py:71 | a trailing reset code is removed |
| InjectSshKeys.ColouredText | host-management/scripts/inject-ssh-keys.py:71 | coloured text loses its codes and keeps its characters |
| InjectSshKeys.FirstRule | host-management/scripts/inject-ssh-keys.py:74-77 | the first rule whose phrase occurs gives the message, and none applies iff no phrase occurs |
| InjectSshKeys.CleanErrorNonEmpty | host-management/scripts/inject-ssh-keys.py:68-80 | the cleaned error is never empty (`Unknown error` at worst) |
| InjectSshKeys.PushFailureMessage | host-management/scripts/inject-ssh-keys.py:68-83 | a failed key push reports the access-denied message first, then the not-found one, and never an empty message |
| InjectSshKeys.CleanErrorPlainLine | host-management/scripts/inject-ssh-keys.py:79-80 | a plain one-line error matching no rule is kept as it is |
| InjectSshKeys.SshCommands | host-management/scripts/inject-ssh-keys.py:94-99 | four remote steps |
| InjectSshKeys.StepsFrom | host-management/scripts/inject-ssh-keys.py:101-143 | at most four steps run, and all four when the key is added |
| InjectSshKeys.StepsFacts | host-management/scripts/inject-ssh-keys.py:101-143 | already present iff the first two succeed and `not_found` is absent (then two steps); added iff all four succeed with `not_found` |
| InjectSshKeys.InjectViaSsh | host-management/scripts/inject-ssh-keys.py:90-150 | the loop issues the steps in order and stops at the first failure |
| InjectSshKeys.TryUser | host-management/scripts/inject-ssh-keys.py:178-204 | with no existing key, or an empty key path (which the script treats as none), a user works iff push, inject and test all succeed; with a non-empty existing key it works iff inject and test succeed, with no push |
| InjectSshKeys.EmptyExistingKeyPushes | host-management/scripts/inject-ssh-keys.py:178-180 | an empty existing-key path behaves exactly as no existing key, so a failed push means the user does not work |
| InjectSshKeys.InjectAllUsers | host-management/scripts/inject-ssh-keys.py:171-206 | the first working user is reported, and success iff there is one; the existing-key path is taken only for a non-empty key path |
| InjectSshKeys.ProcessResult | host-management/scripts/inject-ssh-keys.py:380-415 | excluded or not running fails with no users; dry run succeeds with no users; otherwise at most the one working user |
| InjectSshKeys.ProcessHost | host-management/scripts/inject-ssh-keys.py:380-415 | the host is processed as the result function says |
| InjectSshKeys.TallyFacts | host-management/scripts/inject-ssh-keys.py:465-503 | every row is counted once as excluded, processed, failed or declined; Instance Connect equals processed |
| InjectSshKeys.ProcessHosts | host-management/scripts/inject-ssh-keys.py:449-503 | the counters are the tally and each user's count is their number of successes |
| InjectSshKeys.CountRow | host-management/scripts/inject-ssh-keys.py:465-503 | one row updates the counters and keeps the per-user counts exact |
| InjectSshKeys.Record | host-management/scripts/inject-ssh-keys.py:491-501 | a result is recorded and the per-user counts stay exact |
| InjectSshKeys.AddUsers | host-management/scripts/inject-ssh-keys.py:493-495 | adding users increments exactly their counts |
| AddTagsWizard.ListedOf | miscellaneous/add-tags-wizard.py:57-69 | id, region and state carried over, and `N/A` without tags |
| AddTagsWizard.RowsOf | miscellaneous/add-tags-wizard.py:54-69 | one listed row per instance |
| AddTagsWizard.ParseInt | miscellaneous/add-tags-wizard.py:127 | a number is parsed only from non-empty text |
| AddTagsWizard.ParseIntOfString | miscellaneous/add-tags-wizard.py:127 | every integer's decimal form parses back to it |
| AddTagsWizard.Indices | miscellaneous/add-tags-wizard.py:127 | one zero-based index per part, or none when a part is not a number |
| AddTagsWizard.Picked | miscellaneous/add-tags-wizard.py:130-134 | never more picks than indices |
| AddTagsWizard.PickedFacts | miscellaneous/add-tags-wizard.py:130-134 | out-of-range indices are skipped; in-range ones pick those instances in order |
| AddTagsWizard.PickInstances | miscellaneous/add-tags-wizard.py:128-134 | the loop picks exactly those |
| AddTagsWizard.ChoiceOf | miscellaneous/add-tags-wizard.py:117-141 | a numbered choice selects a non-empty subset of the instances |
| AddTagsWizard.Choose | miscellaneous/add-tags-wizard.py:120-141 | one answer is read as `all`, `none` or numbers, as the choice function says |
| AddTagsWizard.NumeralsAnswer | miscellaneous/add-tags-wizard.py:120-127 | a comma-joined list of numbers starts with a digit and splits back into its numerals |
| AddTagsWizard.PickedNumbers | miscellaneous/add-tags-wizard.py:130-134 | valid 1-based numbers pick those instances, one each, in the order given |
| AddTagsWizard.SelectInstances | miscellaneous/add-tags-wizard.py:101-141 | the prompt loop settles on the first acceptable answer |
| AddTagsWizard.Numerals | miscellaneous/add-tags-wizard.py:127 | one numeral per number |
| AddTagsWizard.ZeroBased | miscellaneous/add-tags-wizard.py:127 | one index per number |
| AddTagsWizard.NumeralsFacts | miscellaneous/add-tags-wizard.py:127 | the numerals are the numbers' decimal forms and the indices are one less |
| AddTagsWizard.IndicesOfNumbers | miscellaneous/add-tags-wizard.py:127 | comma-joined numbers parse to their zero-based indices |
| AddTagsWizard.NotAKeyword | miscellaneous/add-tags-wizard.py:120-123 | an answer starting with a digit is neither `all` nor `none` |
| AddTagsWizard.SelectByNumbers | miscellaneous/add-tags-wizard.py:117-137 | answering valid 1-based numbers selects exactly those instances, in the order typed |
| AddTagsWizard.EntryOf | miscellaneous/add-tags-wizard.py:153-169 | a tag has a non-empty key without `=` and a non-empty value |
| AddTagsWizard.SplitOnce | miscellaneous/add-tags-wizard.py:158-159 | there is a split iff the answer holds `=` |
| AddTagsWizard.SplitOnceParts | miscellaneous/add-tags-wizard.py:159 | the split is at the first `=`: the key holds none, and key, `=` and value rebuild the answer |
| AddTagsWizard.SplitOnceJoin | miscellaneous/add-tags-wizard.py:159 | a key without `=` joined to any value by `=` splits back into that key and value |
| AddTagsWizard.EntryOfPair | miscellaneous/add-tags-wizard.py:158-165 | `key=value` with clean parts reads back as that pair |
| AddTagsWizard.Pairs | miscellaneous/add-tags-wizard.py:158-165 | never more pairs than answers |
| AddTagsWizard.TagMap | miscellaneous/add-tags-wizard.py:164 | the last key entered is in the map |
| AddTagsWizard.TagMapKeys | miscellaneous/add-tags-wizard.py:164 | the map's keys are exactly the keys entered |
| AddTagsWizard.TagMapLastWins | miscellaneous/add-tags-wizard.py:164 | a key entered again takes its last value |
| AddTagsWizard.StopAt | miscellaneous/add-tags-wizard.py:150-156 | the prompt stops at a `done` or `cancel` answer |
| AddTagsWizard.StopAtFirst | miscellaneous/add-tags-wizard.py:150-156 | no earlier answer was `done` or `cancel` |
| AddTagsWizard.GetTags | miscellaneous/add-tags-wizard.py:143-171 | the loop builds the tags up to `done`, or cancels |
| AddTagsWizard.TagStep | miscellaneous/add-tags-wizard.py:150-165 | one prompt either stops or adds its pair |
| AddTagsWizard.KeysSnoc | miscellaneous/add-tags-wizard.py:164 | a new key goes last in the order, and a repeated one keeps its place |
| AddTagsWizard.TagsOrder | miscellaneous/add-tags-wizard.py:164 | the tag order lists each key once, exactly the map's keys |
| AddTagsWizard.CountIf | miscellaneous/add-tags-wizard.py:188-219 | a count never exceeds the instances |
| AddTagsWizard.CountSplit | miscellaneous/add-tags-wizard.py:188-219 | successes and errors add up to the selected instances |
| AddTagsWizard.CountIfSnoc | miscellaneous/add-tags-wizard.py:197-215 | one more instance adds one to exactly one count |
| AddTagsWizard.InRegion | miscellaneous/add-tags-wizard.py:181-186 | a region's group is drawn from the instances |
| AddTagsWizard.InRegionMembers | miscellaneous/add-tags-wizard.py:181-186 | a region's group holds only instances of that region |
| AddTagsWizard.InRegionSnoc | miscellaneous/add-tags-wizard.py:186 | an instance joins its own region's group last |
| AddTagsWizard.NoRegionNoGroup | miscellaneous/add-tags-wizard.py:184-185 | a region with no instance has an empty group |
| AddTagsWizard.RegionsSnoc | miscellaneous/add-tags-wizard.py:184-185 | a region joins the order when first seen |
| AddTagsWizard.GroupsFacts | miscellaneous/add-tags-wizard.py:181-186 | the groups are keyed by the regions present, each holding that region's instances in order |
| AddTagsWizard.GroupsSnoc | miscellaneous/add-tags-wizard.py:182-186 | an instance is appended to its region's group, which is created empty when the region is new |
| AddTagsWizard.GroupKeys | miscellaneous/add-tags-wizard.py:181-186 | the group keys are the regions present |
| AddTagsWizard.GroupByRegion | miscellaneous/add-tags-wizard.py:181-186 | the loop builds the groups and the first-seen region order |
| AddTagsWizard.GroupCountSnoc | miscellaneous/add-tags-wizard.py:191-219 | one more instance adds to the count of its group |
| AddTagsWizard.GroupCountNewRegion | miscellaneous/add-tags-wizard.py:191-219 | a new region's group counts its instance |
| AddTagsWizard.GroupCountAll | miscellaneous/add-tags-wizard.py:191-219 | counting group by group gives the count over all instances |
| AddTagsWizard.ApplyStep | miscellaneous/add-tags-wizard.py:191-215 | one more region of the order adds the count of that region's group, whose instances are all in it |
| AddTagsWizard.TagRegion | miscellaneous/add-tags-wizard.py:191-219 | a region's successes and errors are its tagged and untagged instances |
| AddTagsWizard.NoneTagged | miscellaneous/add-tags-wizard.py:217-219 | when the region's client fails, every instance there counts as an error |
| AddTagsWizard.ApplyTags | miscellaneous/add-tags-wizard.py:173-219 | nothing happens with no instances or no tags; otherwise each instance counts once as success or error |
| AddTagsWizard.ListingRegions | miscellaneous/add-tags-wizard.py:238-254 | listed instances come from the scanned regions |
| AddTagsWizard.ListingStep | miscellaneous/add-tags-wizard.py:239-254 | missing credentials end the scan; other errors skip the region |
| AddTagsWizard.FetchAll | miscellaneous/add-tags-wizard.py:238-254 | the loop lists every region in order |
| AddTagsWizard.Wizard | miscellaneous/add-tags-wizard.py:227-293 | a bad environment or missing credentials exits 1; tags are applied only after selection, tags and confirmation, with each selected instance counted once |
| ListAwsProfiles.ProfileName | host-management/scripts/list-aws-profiles.py:38-41 | a recognised line is long enough to hold the prefix and a closing character |
| ListAwsProfiles.ProfileNameShape | host-management/scripts/list-aws-profiles.py:38-41 | the stripped line is the prefix, the name and one closing character |
| ListAwsProfiles.StripNewline | host-management/scripts/list-aws-profiles.py:38 | stripping drops a trailing newline |
| ListAwsProfiles.ProfileNameOfHeader | host-management/scripts/list-aws-profiles.py:37-41 | a `[profile n]` header, with or without its newline, gives `n` |
| ListAwsProfiles.Printed | host-management/scripts/list-aws-profiles.py:37-44 | never more names than lines |
| ListAwsProfiles.NamesSnoc | host-management/scripts/list-aws-profiles.py:37-41 | one more line names a profile when it or an earlier one does |
| ListAwsProfiles.PrintedMember | host-management/scripts/list-aws-profiles.py:37-44 | a name is printed iff some header names it and it holds the role filter |
| ListAwsProfiles.PrintedFiltered | host-management/scripts/list-aws-profiles.py:42-43 | every printed name holds the role filter |
| ListAwsProfiles.ListProfiles | host-management/scripts/list-aws-profiles.py:20-49 | a missing config exits 1 printing nothing; a read error exits 1 after printing the names of the lines read before it; otherwise the names are printed and counted, exit 0 |
| ReloadTeleport.ParseArguments | miscellaneous/reload-teleport-on-hosts.py:53-67 | no host exits 2; absent or empty users means the default users |
| ReloadTeleport.ParseArgumentsJoin | miscellaneous/reload-teleport-on-hosts.py:55-63 | comma-joined clean hosts and users parse back to themselves |
| ReloadTeleport.ReloadCommand | miscellaneous/reload-teleport-on-hosts.py:83-92 | `tsh ssh user@host` then the reload |
| ReloadTeleport.FailureMessage | miscellaneous/reload-teleport-on-hosts.py:103-106 | no stderr gives `exit_code_<n>`; blank stderr raises `IndexError`, recorded by name |
| ReloadTeleport.Diagnostic | miscellaneous/reload-teleport-on-hosts.py:100-112 | a run leaves no diagnostic iff it succeeds or `tsh` is missing |
| ReloadTeleport.Reload | miscellaneous/reload-teleport-on-hosts.py:80-114 | a success names one of the users with no message; a failure has a message and no user |
| ReloadTeleport.FirstSuccessWins | miscellaneous/reload-teleport-on-hosts.py:82-101 | the first user that succeeds, before any stop, is reported |
| ReloadTeleport.MissingTshStops | miscellaneous/reload-teleport-on-hosts.py:82-108 | a missing `tsh` before any success ends the host with `tsh_not_found`, and no later user is tried |
| ReloadTeleport.AllFailLastMessage | miscellaneous/reload-teleport-on-hosts.py:102-114 | when all fail, the last user's diagnostic is reported, or `unknown_error` |
| ReloadTeleport.DiagnosticOf | miscellaneous/reload-teleport-on-hosts.py:102-112 | the loop records the diagnostic the run leaves |
| ReloadTeleport.ReloadFromSuffix | miscellaneous/reload-teleport-on-hosts.py:82-114 | walking the users by position is the same as walking the list of the remaining users |
| ReloadTeleport.ReloadOnHost | miscellaneous/reload-teleport-on-hosts.py:70-114 | the loop returns the `(success, user, message)` that `Reload` defines: the first user that exits 0, `tsh_not_found` as soon as `tsh` is missing, otherwise the latest diagnostic or `unknown_error` |
| ReloadTeleport.ReloadAll | miscellaneous/reload-teleport-on-hosts.py:117-143 | every host is tried in order with the same users and counted as completed |
| EnableTagsImds.ParseArguments | miscellaneous/enable-tags-imds.py:50-66 | no id exits 2; absent or empty regions means the default regions |
| EnableTagsImds.RegionsNonEmpty | miscellaneous/enable-tags-imds.py:53-62 | every parsed region is non-empty |
| EnableTagsImds.Locate | miscellaneous/enable-tags-imds.py:69-91 | a found region is one of those searched, with no message |
| EnableTagsImds.LocateFirst | miscellaneous/enable-tags-imds.py:76-80 | the first region where the lookup succeeds is returned |
| EnableTagsImds.LatestErrorCons | miscellaneous/enable-tags-imds.py:81-90 | each failing region replaces the error kept so far |
| EnableTagsImds.LocateNotFound | miscellaneous/enable-tags-imds.py:81-91 | when no region has the id, the latest error, or `not_found`, is reported |
| EnableTagsImds.FoundIff | miscellaneous/enable-tags-imds.py:75-91 | a region is found iff some region's lookup succeeds |
| EnableTagsImds.FindInstanceRegion | miscellaneous/enable-tags-imds.py:69-91 | the loop searches the regions in order |
| EnableTagsImds.EnableImdsTags | miscellaneous/enable-tags-imds.py:94-115 | `enabled` means modified successfully; `already_enabled` means untouched; modification follows a successful describe |
| EnableTagsImds.EnableOnce | miscellaneous/enable-tags-imds.py:101-110 | modification happens iff tags were not already enabled |
| EnableTagsImds.ProcessId | miscellaneous/enable-tags-imds.py:127-138 | an id is located, then enabled in its region |
| EnableTagsImds.EnableAll | miscellaneous/enable-tags-imds.py:118-140 | no id exits 2; otherwise one result per id, in order |
| EnableTagsImds.ProcessIds | miscellaneous/enable-tags-imds.py:127-138 | one result per id, in order, each the result of locating and enabling that id |
| Lists.Limit | host-management/scripts/find-ec2.py:54-55 | the first `limit` items when the limit is positive, else all |
| Lists.Dedup | miscellaneous/add-tags-wizard.py:184-185 | de-duplication never lengthens |
| Lists.DedupFacts | miscellaneous/add-tags-wizard.py:184-185 | the first-seen order holds each item once, and exactly the items present |
| Lists.DedupSnoc | miscellaneous/add-tags-wizard.py:184-185 | a new item goes last and a repeated one changes nothing |
| Lists.First | miscellaneous/add-tags-wizard.py:117-141 | the first item satisfying the test, or none iff no item does |
| Lists.FirstIsFirst | miscellaneous/add-tags-wizard.py:117-141 | no earlier item satisfies the test |
| Lists.FirstFrom | miscellaneous/add-tags-wizard.py:117-141 | a rejected answer is skipped |
| Text.LStrip | miscellaneous/create-new-test-instance.py:257 | left-stripping never lengthens |
| Text.LStripFacts | miscellaneous/create-new-test-instance.py:257 | `lstrip` removes exactly the leading whitespace |
| Text.RStrip | host-management/scripts/list-aws-profiles.py:38 | right-stripping never lengthens |
| Text.RStripFacts | host-management/scripts/list-aws-profiles.py:38 | `rstrip` removes exactly the trailing whitespace |
| Text.Strip | host-management/scripts/list-aws-profiles.py:38 | stripping never lengthens |
| Text.StripIsStripped | host-management/scripts/list-aws-profiles.py:38 | stripped text has no whitespace at either end |
| Text.StripInside | host-management/scripts/find-ec2.py:126 | stripping only removes characters |
| Text.StripStripped | host-management/scripts/list-aws-profiles.py:38 | stripping is idempotent |
| Text.StripEmptyIff | host-management/scripts/find-ec2.py:51 | a line strips to empty iff it is all whitespace |
| Text.Lower | host-management/scripts/find-ec2.py:104 | lower-casing maps each character |
| Text.LowerSlice | host-management/scripts/show-instances.py:148-158 | lower-casing commutes with slicing |
| Text.Find | host-management/scripts/show-instances.py:148 | `find` returns -1 or a position where the pattern occurs |
| Text.FindFacts | host-management/scripts/show-instances.py:148 | `find` returns the leftmost occurrence from the start |
| Text.OccursInSlice | host-management/scripts/show-instances.py:148-158 | an occurrence in a slice is one in the whole text |
| Text.OccursAtSlice | host-management/scripts/show-instances.py:148 | an occurrence at a position is the slice there equalling the pattern |
| Text.AbsentChar | miscellaneous/destroy-test-instance.py:284-286 | a missing character is not a substring |
| Text.ContainsAt | host-management/scripts/find-ec2.py:105 | an occurrence makes `in` true |
| Text.ContainsIff | host-management/scripts/find-ec2.py:105 | `in` holds iff the pattern occurs somewhere |
| Text.ContainsInside | miscellaneous/create-new-test-instance.py:276 | a substring of a part is a substring of the whole |
| Text.NotContainsTail | miscellaneous/create-new-test-instance.py:276 | an absent pattern is absent from any suffix |
| Text.ContainsEmpty | host-management/scripts/find-ec2.py:105 | the empty string is in every string |
| Text.ReplaceAbsent | miscellaneous/create-new-test-instance.py:195 | replacing an absent pattern changes nothing |
| Text.ReplaceSelf | miscellaneous/create-new-test-instance.py:195 | replacing a pattern by itself changes nothing |
| Text.RemoveCharMembers | miscellaneous/destroy-test-instance.py:284 | deleting a character keeps every other character and only those |
| Text.ReplaceAround | miscellaneous/create-new-test-instance.py:195 | the first occurrence is replaced and the scan continues after it |
| Text.Split | host-management/scripts/find-ec2.py:107 | at least one part, none holding the separator |
| Text.JoinSplit | host-management/scripts/find-ec2.py:107-111 | joining the parts of a split gives the text back |
| Text.SplitPlain | host-management/scripts/find-ec2.py:126 | text without the separator is one part |
| Text.SplitAfterHead | host-management/scripts/find-ec2.py:107-111 | the first part is the text before the first separator |
| Text.SplitJoin | host-management/scripts/find-ec2.py:107-111 | splitting joined parts gives the parts back |
| Text.ConcatAppend | miscellaneous/create-new-test-instance.py:260 | concatenation distributes over appending |
| Text.SplitLines | host-management/scripts/find-ec2.py:98 | no line holds a newline |
| Text.SplitLinesKeepEnds | miscellaneous/create-new-test-instance.py:251 | the kept-ends lines rejoin to the text and none is empty |
| Text.StrippedNonEmpty | miscellaneous/reload-teleport-on-hosts.py:55-56 | only stripped, non-empty parts are kept |
| Text.StrippedNonEmptyMember | miscellaneous/reload-teleport-on-hosts.py:55-56 | kept parts are exactly the non-empty stripped parts |
| Text.StrippedNonEmptyClean | miscellaneous/reload-teleport-on-hosts.py:55-56 | clean parts are kept as they are |
| Text.CommaList | miscellaneous/reload-teleport-on-hosts.py:55-56 | the items are stripped and non-empty |
| Text.CommaListJoin | miscellaneous/reload-teleport-on-hosts.py:55-56 | comma-joined clean items parse back to themselves |
| Text.CommaParts | host-management/scripts/find-ec2.py:126 | one term per comma-separated part, empty parts kept (the same parsing as the exclude patterns of inject-ssh-keys.py:443) |
| Text.CommaPartsFacts | host-management/scripts/inject-ssh-keys.py:443 | every part is stripped and comma-free; a string without commas is one part |
| Text.DigitChar | miscellaneous/create-new-test-instance.py:145 | a digit value gives a digit character |
| Text.NatToString | miscellaneous/create-new-test-instance.py:145 | a number's decimal form is non-empty digits |
| Text.DigitsValueOfNat | miscellaneous/create-new-test-instance.py:145 | a decimal form reads back as its number |
| Text.Pad2 | miscellaneous/create-new-test-instance.py:145 | the two-digit form of seconds reads back as them |

## Left out

- External programs and AWS calls are not executed. Their exit statuses, outputs, clone
  contents and API answers are oracle parameters (`exitOf`, `cloneOf`, `run`, `attempt`,
  `probe`, `describe`, `instancesOf`, `regionsOf`).
- Output streaming, log-file contents and subprocess timeouts are modelled only as outcomes.
- All console output is left out: rich panels, tables, spinners, progress bars, colours and
  the numbered step headers.
- `display_instances` in `add-tags-wizard.py` and the table printing in `show-instances.py`
  are left out, because they only print.
- Interactive prompts are modelled as sequences of answers. This covers
  `Prompt.ask`, `Confirm.ask` (a boolean), `input()` in debug mode (`answerOf`) and the
  sort-column prompt. "Press Enter to continue" has no effect on the run and is left out.
- `Shell.Machine`'s clock: elapsed seconds are parameters. `time.monotonic`, `time.sleep`
  and `uuid4` are left out; the run id is a parameter.
- The temporary log file appears only as whether it is opened.
- `shutil.which("play")` is the boolean `hasPlay`.
- `shutil.rmtree` removes the directory and every path under it from the set of present
  paths. File permissions and partial removal are not modelled.
- YAML parsing and dumping (`yaml.safe_load`, `yaml.safe_dump` formatting) and yq
  evaluation are not modelled. For create, the emails file is a `CreateInstance.EmailsDoc`:
  missing, an empty document, a null `host_emails`, or a mapping with an optional
  `host_emails` map. Other non-mapping documents (a list, a scalar) are not modelled. For
  destroy, `.all.hosts` and `.host_emails` are optional key sets.
- `CreateInstance.KeyPath` reads only block-style YAML. It treats every non-blank line as
  a key line. Comments, flow-style mappings, sequences and multi-line scalars are not
  modelled.
- `DestroyInstance.YqRemove`: the answer of `yq has` is read from the `has` command's exit
  status in the oracle (0 meaning found). Its printed `true`/`false` is not modelled.
- `check_aws_environment` in `add-tags-wizard.py` is the boolean `envOk`. The individual
  variable checks are not modelled.
- `show-instances.py` outside `get_instances_in_region`, `get_sort_column` and
  `highlight_matches` is not part of this model: the region loop, sorting, table output and
  CSV output.
- `load_csv_data` (pandas) is left out. Hosts arrive as `HostRow` values, and a NaN name is
  `None`. A NaN public IP and `str()` of non-string cells are not modelled.
- The public-key file read in `inject-ssh-keys.py` is left out. The key text is a parameter.
- The existing-key path `_inject_key_via_existing_key` and `test_ssh_connection` are
  modelled only through their commands' outcomes. Their console diagnostics are left out.
- `enable-tags-imds.py`: a failure to create a boto3 client in `find_instance_region`
  happens outside the `try` block and would end the script. This is not modelled.
- `reload-teleport-on-hosts.py`: the `--verbose` detail lines and the console report are
  left out. The verbose flag is carried only through parsing.
- `find-ec2-minimal.py` helpers are left out, because they only print:
  - the progress output (`print_progress`, `print_success`);
  - the terminal-width handling;
  - the unused `find_instances` function (lines 57-83).
- `create-new-test-instance.py` is left out in three places:
  - `create_stack_directory` and `copy_template` (lines 171-181), which are never called;
  - the `OFFICE_VPN_IP` setting (line 316), which is read and never used;
  - the vault, key and repository settings, which pass through `Configure` unchanged.
- `install-teleport-single-host.py`, `push-ssh-key-to-instance.py`, `analyze-hosts.py` and
  `find-nat-gateways.py` are not part of this model. Their effects reach it only as oracle
  answers.
- `Text.Lower` and `Text.IsAlnum` cover ASCII only. Unicode case mapping and non-ASCII
  letters and digits are not modelled. `Text.IsSpace` is the full set of characters
  `str.isspace` accepts, Unicode whitespace included.
  Because `Text.Lower` maps each character to one character, `ShowInstances.Highlight`
  slices each match by the length of the lower-cased query, which equals the
  `len(search_query)` the script slices by.
- `Text.SplitLines` and `Text.SplitLinesKeepEnds` split only at `\n`. The other line
  boundaries of `str.splitlines` (`\r`, `\v`, `\f`, `\x1c`-`\x1e`, `\x85`, `\u2028`,
  `\u2029`) are not modelled. Universal-newline translation when reading files is not
  modelled either.
- `AddTagsWizard.ParseInt` accepts an optional sign and ASCII digits only. Python's `int()`
  also takes `_` between digits and non-ASCII digits.
- `AddTagsWizard.SelectInstances`, `AddTagsWizard.GetTags` and `ShowInstances.SortColumn`:
  when the answers run out before the prompt settles, the model gives up (`None`,
  `Unanswered`, `Unfinished`, `Waiting`). The script would block or raise on end of input.
- `AddTagsWizard.TagsOrder`: the order tags are sent in is the first-insertion order of
  keys, as a dictionary keeps it. Only that order and the key set are stated.
- `FindEc2Minimal.SortRows` is an insertion sort. It is proved sorted and a permutation.
  The stability of Python's `sort` is not proved.
- `FindEc2Minimal.DiscoverRegions`: the total number of pairs counts a profile listed twice
  twice, while the region dictionary holds it once. `DedupCount` states this; the printed
  progress is left out.
- `Ec2.Header` is the literal header line. That it lists exactly the eight columns is not
  proved.
- `InjectSshKeys.TallyFacts`: the per-row `time.sleep(1)` is left out. The declined-in-debug
  rows, which the script counts nowhere, appear as the separate counter `skipped`, so the
  counts add up to the number of rows.
- `InstallTeleport.Successes`: counts a debug-mode host with the corrected `Installed`, so a host
  succeeds iff its installer exits 0. The script as written counts every debug-mode host as failed
  (install-teleport-on-hosts.py:140-154). `InstallTeleport.SuccessesAsWritten` is the count as
  written, and `InstallTeleport.AsWrittenSuccesses` proves it is 0 with `--debug` and equal to
  `Successes` without it (see "## Findings").
- `InstallTeleport.InstallAll`: its successes are `Successes`, the corrected count, so with `--debug`
  it counts a host whose installer exits 0 as successful, where the script counts it as failed.
- `InstallTeleport.InstallOnHosts`: the summary's successful count is `Successes`, the corrected
  count; with `--debug` the script as written reports 0 successes.

## Findings

| source | as written | input that shows it | evidently intended | confidence | as-written member | corrected member |
|---|---|---|---|---|---|---|
| host-management/scripts/install-teleport-on-hosts.py:140-150 | in debug mode `result = process.wait()` holds an int, so `result.returncode` raises `AttributeError`; the handler at lines 152-154 returns `False` | `--debug`, installer exits 0 | a host succeeds iff the installer exits 0, in both modes | high, not executed | InstallTeleport.InstalledAsWritten (shown by InstallTeleport.DebugRunNeverSucceeds; counted by InstallTeleport.SuccessesAsWritten, see InstallTeleport.AsWrittenSuccesses) | InstallTeleport.Installed |
