# pam_namespace in Dafny

A model of the decision logic of Linux-PAM's `pam_namespace` module
(`modules/pam_namespace/pam_namespace.c`), with proofs about it. The module
gives each user session private instances of chosen directories
("polydirs"). It reads the rules of `namespace.conf` into a linked list.
When a session opens, it leaves the parent's mount namespace, creates an
instance directory per rule and bind-mounts it over the polydir. When the
session closes, it unmounts the instances and removes temporary ones.

Modules, in dependency order:

- `Types` (types.dfy): the rule record `PolyDir` (struct polydir_s), the
  option `Flags`, PAM status codes, `Stat`, and `Action`, the calls the
  module makes on the kernel, the file system and the PAM handle.
- `CStrings` (cstrings.dfy): the C string functions the parser relies on
  (`strchr`, `strrchr`, `strstr`, `strtok_r`, `isspace`, `strncmp`).
- `Override` (override.dfy): `ns_override`.
- `ConfigParser` (config_parser.dfy): `process_line` and the line loop of
  `parse_config_file`, as specification functions.
- `Namespace` (instance_data.dfy): `struct instance_data` as the class
  `InstanceData`, whose rule list is a `seq` field. The list operations and
  the imperative parser are proved equal to `ConfigParser`.
- `Paths` (paths.dfy): `check_inst_parent`, `cwd_in` and the
  `poly_parent` computation.
- `InstanceName` (instance_name.dfy): `poly_name` and the hex formatting
  of `md5hash`.
- `Provision` (provision.dfy): `inst_init`, `create_dirs` and `ns_setup`,
  as specification functions over an abstract file system.
- `Setup` (setup.dfy): the two loops of `setup_namespace`,
  `cleanup_tmpdirs` and `orig_namespace`, as specification functions.
- `Session` (session.dfy): the same operations as methods on
  `InstanceData`. Each is proved equal to its specification.
- `Pam` (pam.dfy): the module arguments, and `pam_sm_open_session` and
  `pam_sm_close_session` as specifications. Also holds the lifetime of
  the rule list.
- `Entry` (entry.dfy): the two entry points as methods, proved equal to
  `Pam`.

The environment is given as inputs:

- what `stat` finds is a map from paths to `Stat`;
- whether each other system call succeeds is a boolean or an `Option`;
- the passwd database is a map from names to `Passwd`;
- the configuration file is its text, or `None` when it cannot be opened;
- the MD5 digest is a function parameter.

Every operation returns the list of `Action`s it performed, in order. The
properties are about that trace: what is mounted, what is removed, and
how often the rule list is released.

## Model

| member | source | states |
|---|---|---|
| Namespace.CopyEnt | modules/pam_namespace/pam_namespace.c:38-60 | copy_ent copies every field and the uid array element by element, so the copy equals the original |
| Namespace.InstanceData.AddPolydirEntry | modules/pam_namespace/pam_namespace.c:67-106 | add_polydir_entry puts a copy of the rule at the tail of the list and leaves the earlier entries unchanged |
| Namespace.InstanceData.DelPolydirList | modules/pam_namespace/pam_namespace.c:112-122 | del_polydir_list releases the entries from the head until the list is empty |
| Namespace.InstanceData.constructor | modules/pam_namespace/pam_namespace.c:1387-1443 | the instance data of pam_sm_open_session holds the given user, uid and flags and starts with an empty rule list |
| Namespace.InstanceData.ProcessLine | modules/pam_namespace/pam_namespace.c:137-358 | process_line returns the status of the line's outcome and appends exactly that outcome's rule, if it has one |
| Namespace.InstanceData.CheckAndAdd | modules/pam_namespace/pam_namespace.c:235-356 | the checks of process_line after substitution, then the uid list, then the append; equal to ConfigParser.CheckRule |
| Namespace.ResolveUids | modules/pam_namespace/pam_namespace.c:308-336 | the uid loop stores the uids of the known names in list order and counts them; unknown names decrement num_uids |
| Namespace.CountFields | modules/pam_namespace/pam_namespace.c:308-309 | the counting loop yields one field per comma-separated name |
| Namespace.InstanceData.ParseConfigFile | modules/pam_namespace/pam_namespace.c:367-437 | parse_config_file fails with PAM_SESSION_ERR for an unknown user and PAM_SERVICE_ERR for a missing file; otherwise it is the line loop of ConfigParser.ParseConfig |
| Namespace.LoopStep | modules/pam_namespace/pam_namespace.c:406-415 | one pass of the getline loop keeps the loop invariant, or ends the loop with PAM_SERVICE_ERR exactly as the first failing line does |
| ConfigParser.BlankLineAddsNothing | modules/pam_namespace/pam_namespace.c:153-175 | a line that is empty after skipping white space and cutting at '#' and the newline returns 0 and adds no rule |
| ConfigParser.CommentLineIsBlank | modules/pam_namespace/pam_namespace.c:153-162 | a line whose first non-blank character is '#' is blank |
| ConfigParser.MissingFieldRejected | modules/pam_namespace/pam_namespace.c:180-194 | a line with fewer than three fields is rejected, with PAM_SERVICE_ERR unless ignore_config_error is set |
| ConfigParser.RejectedLine | modules/pam_namespace/pam_namespace.c:351-355 | a rejected line adds nothing and returns PAM_SERVICE_ERR, or 0 under ignore_config_error |
| ConfigParser.CheckRuleRejects | modules/pam_namespace/pam_namespace.c:235-291 | the expanded fields are rejected if and only if a path is too long, a tmpdir prefix leaves fewer than 7 bytes, the method is unknown, a path is not absolute (the prefix is exempt for tmpfs), or a path contains `..` |
| ConfigParser.AcceptedIsWellFormed | modules/pam_namespace/pam_namespace.c:235-291 | every stored rule has an absolute, bounded, `..`-free directory and prefix and a known method |
| ConfigParser.SuffixKeepsNoDotDot | modules/pam_namespace/pam_namespace.c:247-254 | appending the mkdtemp template to a `..`-free prefix creates no `..` |
| ConfigParser.HomeDirSubstituted | modules/pam_namespace/pam_namespace.c:210-212 | a directory field equal to `$HOME` becomes the user's home directory |
| ConfigParser.PrefixExpansion | modules/pam_namespace/pam_namespace.c:217-229 | the first `$USER` is replaced by the user, then the first `$HOME` of the result by the home directory; the text around each is kept verbatim |
| ConfigParser.PrefixVerbatim | modules/pam_namespace/pam_namespace.c:217-229 | a prefix with neither `$USER` nor `$HOME` is stored as written |
| ConfigParser.ReplaceFirstShape | modules/pam_namespace/pam_namespace.c:217-229 | the substitution replaces the first occurrence of the pattern and keeps the text before and after it |
| ConfigParser.TmpdirTemplate | modules/pam_namespace/pam_namespace.c:247-254 | an accepted tmpdir rule stores the expanded prefix followed by `XXXXXX` |
| ConfigParser.TmpdirNoRoom | modules/pam_namespace/pam_namespace.c:249-252 | a tmpdir line whose prefix leaves fewer than 7 bytes of the buffer is rejected as too long |
| ConfigParser.OverrideField | modules/pam_namespace/pam_namespace.c:304-336 | a leading `~` sets exclusive; the uids are those of the known names in list order; num_uids is the number of names minus the unknown ones |
| ConfigParser.SplitCount | modules/pam_namespace/pam_namespace.c:308-309 | the comma list has one more name than it has commas |
| ConfigParser.ResolvedCount | modules/pam_namespace/pam_namespace.c:322-331 | the number of stored uids is the number of names minus the unknown names |
| ConfigParser.ResolvedInOrder | modules/pam_namespace/pam_namespace.c:322-336 | every known name's uid is stored, and every stored uid belongs to a known name of the list |
| ConfigParser.ResolveConcat | modules/pam_namespace/pam_namespace.c:322-336 | resolving two lists one after the other resolves their concatenation, so list order is kept |
| ConfigParser.FormatParseRoundTrip | modules/pam_namespace/pam_namespace.c:137-358 | a rule written as a configuration line `dir prefix method [uids]` is parsed back into that rule: the optional override field becomes its `~` flag and its uid list |
| ConfigParser.SpacedTokens | modules/pam_namespace/pam_namespace.c:180-202 | strtok_r on fields joined by single spaces gives those fields back, in order |
| ConfigParser.RunLinesSuccess | modules/pam_namespace/pam_namespace.c:406-415 | a successful parse has every line succeeding and stores the rules of the valid lines in file order |
| ConfigParser.RunLinesFailure | modules/pam_namespace/pam_namespace.c:406-415 | a failed parse returns PAM_SERVICE_ERR at the first failing line, and the rules of the lines before it stay in the list |
| ConfigParser.LenientRunKeepsValidLines | modules/pam_namespace/pam_namespace.c:351-353 | under ignore_config_error the parse succeeds and keeps exactly the valid lines' rules |
| ConfigParser.GetLinesJoin | modules/pam_namespace/pam_namespace.c:406 | the lines getline returns, joined, give back the whole file |
| ConfigParser.GetLinesEnds | modules/pam_namespace/pam_namespace.c:406 | every line but the last ends with its newline, and no line holds an earlier newline |
| CStrings.SkipSpaceStops | modules/pam_namespace/pam_namespace.c:153-154 | the white-space loop of process_line stops at the first character that is not white space |
| CStrings.FindFirst | modules/pam_namespace/pam_namespace.c:217-229 | strstr finds the first occurrence, and finds none only when there is none |
| CStrings.SplitFieldsHaveNoSeparator | modules/pam_namespace/pam_namespace.c:322-326 | no name handed to getpwnam contains a comma |
| Override.NsOverride | modules/pam_namespace/pam_namespace.c:447-464 | the scan returns true if and only if the uid is in the list XOR exclusive is set |
| Override.ExclusiveFlipNegates | modules/pam_namespace/pam_namespace.c:447-464 | flipping exclusive with the same uid list negates the result |
| Override.AppliesTo | modules/pam_namespace/pam_namespace.c:447-464 | an exclusive rule applies exactly to the listed uids, a plain rule exactly to the others |
| InstanceName.Md5Hash | modules/pam_namespace/pam_namespace.c:469-494 | md5hash writes two lower-case hex digits per digest byte: 32 characters that encode the digest |
| InstanceName.HexRoundTrip | modules/pam_namespace/pam_namespace.c:487-490 | the hex text decodes back to the digest, so the encoding loses nothing |
| InstanceName.HexIsLowerHex | modules/pam_namespace/pam_namespace.c:487-490 | the hex text uses only `0-9a-f` |
| InstanceName.PolyName | modules/pam_namespace/pam_namespace.c:598-702 | an instance name is never longer than NAMESPACE_MAX_DIR_LEN |
| InstanceName.PolyNameFails | modules/pam_namespace/pam_namespace.c:617-661 | poly_name fails if and only if form_context fails, the method is NONE, or a level or context rule has no raw context or no SELinux support |
| InstanceName.PolyNameUser | modules/pam_namespace/pam_namespace.c:628-633 | a user rule is named after the user while the name is short and gen_hash is off |
| InstanceName.PolyNameTmp | modules/pam_namespace/pam_namespace.c:650-654 | tmpdir and tmpfs rules get the empty name and are never hashed |
| InstanceName.PolyNameHashed | modules/pam_namespace/pam_namespace.c:665-673 | with gen_hash the name is exactly the 32 hex characters of the hash of the unhashed name |
| InstanceName.PolyNameTruncated | modules/pam_namespace/pam_namespace.c:665-681 | without gen_hash a long name keeps its first 47 characters, then `_`, then the hash: exactly NAMESPACE_MAX_DIR_LEN characters |
| InstanceName.PolyNameContext | modules/pam_namespace/pam_namespace.c:636-646 | a level or context name is the raw context, `_`, then the user |
| Paths.InstParent | modules/pam_namespace/pam_namespace.c:719-723 | the instance parent is a prefix of the instance path |
| Paths.InstParentOfChild | modules/pam_namespace/pam_namespace.c:719-723 | the instance parent of `p/name` is `p` |
| Paths.CheckInstParentAccepts | modules/pam_namespace/pam_namespace.c:704-751 | check_inst_parent succeeds if and only if the parent exists, is a directory and, unless ignore_instance_parent_mode is set, has no permission bit set |
| Paths.CwdInIsTextPrefix | modules/pam_namespace/pam_namespace.c:1072-1092 | cwd_in reports inside if and only if the directory is a text prefix of the working directory |
| Paths.CwdInSiblingQuirk | modules/pam_namespace/pam_namespace.c:1081 | so `/tmpfoo` counts as inside `/tmp`, while `/tmp` is outside `/tmp/` |
| Paths.PolyParentTopLevel | modules/pam_namespace/pam_namespace.c:1268-1274 | the parent of a directory directly under the root is `/` |
| Paths.PolyParentNested | modules/pam_namespace/pam_namespace.c:1268-1274 | the parent of a deeper directory `p/name` is `p` |
| Paths.PolyParentOutside | modules/pam_namespace/pam_namespace.c:1268-1274 | the parent is shorter than the polydir, so a working directory moved there is outside it |
| Provision.InstInitSucceeds | modules/pam_namespace/pam_namespace.c:759-819 | inst_init succeeds if and only if the script is absent, or it is executable and ran and exited, whatever its exit code |
| Provision.InstInitStartsScript | modules/pam_namespace/pam_namespace.c:773-791 | the script is started, with the polydir, the instance path, the newdir flag and the user, if and only if it is executable and fork succeeds |
| Provision.CreateDirsChecksFirst | modules/pam_namespace/pam_namespace.c:840-858 | when the polydir is not a directory or the instance parent fails its check, nothing is created and the rule is unchanged |
| Provision.CreateDirsSuccess | modules/pam_namespace/pam_namespace.c:840-858 | success implies the polydir is a directory and the instance parent passed check_inst_parent |
| Provision.CreateDirsExisting | modules/pam_namespace/pam_namespace.c:878-881 | an existing instance (mkdir fails with EEXIST) goes straight to the init script with newdir 0, and its status is the script's |
| Provision.CreateDirsTmpdirRule | modules/pam_namespace/pam_namespace.c:870-878 | a tmpdir rule takes the directory mkdtemp made as its prefix and instance path; if mkdtemp fails the rule's method becomes NONE |
| Provision.CreateDirsCopiesOwnerAndMode | modules/pam_namespace/pam_namespace.c:870-943 | a new instance, made by mkdtemp for a tmpdir rule or by mkdir otherwise, gets the polydir's owner only when it differs, and always its mode & 07777 |
| Provision.CreateDirsRemovesOnlyItsOwn | modules/pam_namespace/pam_namespace.c:889-943 | create_dirs removes only a directory it has just made, and only on failure |
| Provision.CreateDirsRuleChange | modules/pam_namespace/pam_namespace.c:870-878 | only a tmpdir rule is changed, and only in its method or its prefix |
| Provision.CreateDirsFileCalls | modules/pam_namespace/pam_namespace.c:825-956 | create_dirs only makes, labels, chowns, chmods and removes directories and runs the init script |
| Provision.NsSetupBindsOnlyProvisioned | modules/pam_namespace/pam_namespace.c:1027-1046 | in the corrected ns_setup, the bind mount happens only after create_dirs succeeded, and it mounts the directory create_dirs provisioned on the rule's polydir |
| Provision.NsSetupSucceeds | modules/pam_namespace/pam_namespace.c:995-1064 | ns_setup succeeds for a non-tmpfs rule if and only if naming, create_dirs and the bind mount all succeed |
| Provision.NsSetupTmpfs | modules/pam_namespace/pam_namespace.c:980-988 | a tmpfs rule mounts a tmpfs on the polydir and then runs the init script |
| Provision.NsSetupAsWrittenBindsAfterFailure | modules/pam_namespace/pam_namespace.c:1032-1046 | as written, ns_setup bind-mounts the instance even after create_dirs failed |
| Provision.NsSetupAsWrittenExample | modules/pam_namespace/pam_namespace.c:1032-1046 | a user rule for `/tmp` whose instance parent `/tmp-inst` has mode 0755: create_dirs fails, yet as written the bind of `/tmp-inst/alice` on `/tmp` is attempted and, with the mount succeeding, ns_setup returns PAM_SESSION_ERR; the corrected ns_setup makes no call |
| Provision.NsSetupAsWrittenAgrees | modules/pam_namespace/pam_namespace.c:1027-1046 | ns_setup as written ends with the same status and rule as the corrected one; its calls differ only by the bind attempted after create_dirs failed |
| Setup.NeedsPolyIff | modules/pam_namespace/pam_namespace.c:1183-1207 | need_poly holds if and only if some rule applies to the user, or unmounting was asked for and the rule applies to the requesting user |
| Setup.OverriddenOnlyUnmounted | modules/pam_namespace/pam_namespace.c:1237-1242 | a rule overridden for the user is skipped or only unmounted, and only unmounted exactly when a mode is set and it is not overridden for the requesting user |
| Setup.NsSetupMounts | modules/pam_namespace/pam_namespace.c:966-1064 | a successful ns_setup has mounted an instance on the polydir |
| Setup.UnmountLeavesPolydir | modules/pam_namespace/pam_namespace.c:1255-1281 | when the working directory is inside the polydir and chdir succeeds, it ends up outside before the umount |
| Setup.UnmountStatus | modules/pam_namespace/pam_namespace.c:1249-1289 | the unmount step succeeds if and only if getcwd works and umount succeeds or fails with EINVAL, and otherwise returns PAM_SESSION_ERR; when getcwd works it ends with the umount call, and when it fails no call is made |
| Setup.SetupRuleUnmountOnly | modules/pam_namespace/pam_namespace.c:1249-1297 | with UNMNT_ONLY a rule is only unmounted; nothing is created or mounted and the rule is unchanged |
| Setup.SetupRuleRemount | modules/pam_namespace/pam_namespace.c:1249-1297 | with UNMNT_REMNT the polydir is unmounted before ns_setup mounts it again |
| Setup.ApplyRulesKeepsRules | modules/pam_namespace/pam_namespace.c:1235-1299 | skipped rules are left unchanged, and others change only as create_dirs changes a tmpdir rule |
| Setup.ApplyRulesMountsAll | modules/pam_namespace/pam_namespace.c:1235-1299 | when the loop succeeds, every rule that is not skipped or only unmounted has its instance mounted |
| Setup.ApplyRulesStops | modules/pam_namespace/pam_namespace.c:1235-1299 | a failed loop stopped at a rule it did not skip: the rules before it succeeded, the loop ends as the loop over the rules up to that one, the rules after it are left unchanged and no call is made for them |
| Setup.ApplyRulesMountOrder | modules/pam_namespace/pam_namespace.c:1235-1299 | a successful loop mounts exactly the polydirs of the rules it sets up (neither skipped nor only unmounted), once each and in the order of the rules |
| Setup.SetupRuleMountTargets | modules/pam_namespace/pam_namespace.c:1249-1297 | a successful iteration mounts once, on the rule's polydir, and not at all with UNMNT_ONLY |
| Setup.NsSetupMountsOnce | modules/pam_namespace/pam_namespace.c:966-1064 | a successful ns_setup, as written or corrected, mounts exactly once, on the rule's polydir |
| Setup.ApplyRulesIdle | modules/pam_namespace/pam_namespace.c:1235-1243 | when no rule applies, the loop makes no call and changes nothing |
| Setup.CleanupRemovesOnlyTmpdirs | modules/pam_namespace/pam_namespace.c:1108-1109 | cleanup_tmpdirs removes only existing instances of tmpdir rules |
| Setup.CleanupRemovesAll | modules/pam_namespace/pam_namespace.c:1094-1145 | unless fork or wait fails, every existing tmpdir instance is removed and the cleanup succeeds |
| Setup.CleanupSucceeds | modules/pam_namespace/pam_namespace.c:1094-1145 | without fork or wait failures the cleanup succeeds, whatever rm's exit status |
| Setup.SetupNamespaceIdle | modules/pam_namespace/pam_namespace.c:1226-1229 | with no rule to apply, the list is freed and nothing is unshared or mounted |
| Setup.SetupNamespaceUnsharesFirst | modules/pam_namespace/pam_namespace.c:1213-1235 | every mount and umount happens after the list was stored and the namespace unshared |
| Setup.SetupNamespaceOutcome | modules/pam_namespace/pam_namespace.c:1153-1304 | once unshared the handle holds the list; success means every applicable rule is mounted; failure runs the tmpdir cleanup over the rules as left |
| Setup.SetupRuleAsWrittenAgrees | modules/pam_namespace/pam_namespace.c:1249-1297 | with ns_setup as written an iteration ends with the same status, rule and working directory as with the corrected one |
| Setup.ApplyRulesAsWrittenAgrees | modules/pam_namespace/pam_namespace.c:1235-1299 | so does the whole loop |
| Setup.SetupNamespaceAsWrittenAgrees | modules/pam_namespace/pam_namespace.c:1153-1304 | setup_namespace with ns_setup as written ends with the same status, rules, working directory and holder of the list |
| Setup.OrigFromUnmountsApplied | modules/pam_namespace/pam_namespace.c:1325-1341 | when every umount succeeds, exactly the polydirs of rules that apply to the user are unmounted, in order |
| Setup.OrigFromFailure | modules/pam_namespace/pam_namespace.c:1334-1337 | a failed umount of an applicable rule ends the loop with PAM_SESSION_ERR after umounts only |
| Setup.OrigNamespaceOutcome | modules/pam_namespace/pam_namespace.c:1311-1346 | orig_namespace returns success or PAM_SESSION_ERR; a failure has made only umount calls, so no cleanup ran; when every umount succeeds it unmounts the applicable polydirs in order and then runs the tmpdir cleanup |
| Session.CreateDirs | modules/pam_namespace/pam_namespace.c:825-956 | create_dirs on the rule at a position: status, instance path and calls are those of Provision.CreateDirs, and only that rule is updated |
| Session.SetAttributes | modules/pam_namespace/pam_namespace.c:889-955 | the steps after a new directory was made are those of Provision.Provisioned |
| Session.NsSetup | modules/pam_namespace/pam_namespace.c:966-1064 | ns_setup on the rule at a position is Provision.NsSetupAsWritten when `asWritten` is set and the corrected Provision.NsSetup otherwise; only that rule is updated |
| Session.SetupRule | modules/pam_namespace/pam_namespace.c:1249-1297 | one iteration of the setup loop is Setup.SetupRule, with ns_setup as written or corrected |
| Session.ApplyRules | modules/pam_namespace/pam_namespace.c:1235-1299 | the second loop of setup_namespace is Setup.ApplyRules: status, working directory, calls and the rules as left |
| Session.CleanupTmpdirs | modules/pam_namespace/pam_namespace.c:1094-1145 | the cleanup loop is Setup.CleanupTmpdirs |
| Session.OrigNamespace | modules/pam_namespace/pam_namespace.c:1311-1346 | the teardown loop is Setup.OrigNamespace |
| Session.SetupNamespace | modules/pam_namespace/pam_namespace.c:1153-1304 | setup_namespace is Setup.SetupNamespace, with req_uid from PAM_RUSER or the real uid |
| Pam.SelinuxBit | modules/pam_namespace/pam_namespace.c:1391-1396 | the SELinux bit of the flag word is set exactly when SELinux is enabled |
| Pam.RequireSelinuxAsWrittenAlwaysRejects | modules/pam_namespace/pam_namespace.c:1412-1418 | as written, the require_selinux test holds for every flag word |
| Pam.RequireSelinuxRejectsIff | modules/pam_namespace/pam_namespace.c:1412-1418 | the intended test fails the session exactly when SELinux is not enabled |
| Pam.OpenArgsStatus | modules/pam_namespace/pam_namespace.c:1398-1419 | the corrected argument loop fails if and only if require_selinux is given and SELinux is not enabled |
| Pam.OpenArgsAsWrittenStatus | modules/pam_namespace/pam_namespace.c:1398-1419 | as written, the argument loop fails with PAM_SESSION_ERR if and only if require_selinux is given, SELinux or not; without that word it is the corrected loop |
| Pam.OpenArgsFlags | modules/pam_namespace/pam_namespace.c:1398-1407 | each open-session flag is set exactly when its word is given; no other flag changes |
| Pam.OpenArgsUnmnt | modules/pam_namespace/pam_namespace.c:1408-1411 | the last of unmnt_remnt and unmnt_only decides the unmount mode |
| Pam.LastUnmntNone | modules/pam_namespace/pam_namespace.c:1408-1411 | without either word the mode stays NO_UNMNT |
| Pam.CloseArgsMeaning | modules/pam_namespace/pam_namespace.c:1498-1506 | each close-session flag is set exactly when its word is given; no other flag changes |
| Pam.Truncate | modules/pam_namespace/pam_namespace.c:1441-1442 | strncat keeps exactly the first LOGIN_NAME_MAX - 1 characters of a longer user name, and the whole name when it fits |
| Pam.SetupReleases | modules/pam_namespace/pam_namespace.c:1213-1229 | setup_namespace releases the list once when it frees it or clears the handle's slot, and otherwise never |
| Pam.FinishLifetime | modules/pam_namespace/pam_namespace.c:1469-1471 | the corrected end of open_session releases the list at most once; the end as written releases it twice after a failure that already released it |
| Pam.OpenSessionReleasesOnce | modules/pam_namespace/pam_namespace.c:1378-1472 | the corrected open_session releases the rule list at most once over the PAM handle's life |
| Pam.OpenSessionAsWrittenRequireSelinux | modules/pam_namespace/pam_namespace.c:1412-1418 | as written, open_session with require_selinux fails with PAM_SESSION_ERR before it reads PAM_USER, whether SELinux is enabled or not |
| Pam.OpenSessionAsWrittenReleasesTwice | modules/pam_namespace/pam_namespace.c:1456-1471 | as written (ns_setup and the end of open_session), a setup that fails after the list was stored releases it twice; the corrected open_session releases it once |
| Pam.CloseSessionOutcome | modules/pam_namespace/pam_namespace.c:1478-1573 | close_session fails if and only if no_unmount_on_close is unset and the user is missing or unknown; under no_unmount_on_close it makes no call; a successful teardown of a stored list ends by clearing the handle's slot |
| Pam.CloseSessionNoUnmount | modules/pam_namespace/pam_namespace.c:1521-1525 | no_unmount_on_close leaves the namespace and the handle alone |
| Entry.ReadOpenArg | modules/pam_namespace/pam_namespace.c:1400-1411 | one argument sets its flag or unmount mode, as Pam.OpenWord and Pam.UnmntWord say |
| Entry.ParseOpenArgs | modules/pam_namespace/pam_namespace.c:1398-1419 | the argument loop of pam_sm_open_session, with the require_selinux test corrected, is Pam.OpenArgs |
| Entry.ParseCloseArgs | modules/pam_namespace/pam_namespace.c:1498-1506 | the argument loop of pam_sm_close_session is Pam.CloseArgs |
| Entry.OpenSession | modules/pam_namespace/pam_namespace.c:1378-1472 | pam_sm_open_session, with the three findings corrected, is Pam.OpenSession |
| Entry.OpenUser | modules/pam_namespace/pam_namespace.c:1441-1471 | the part after the user lookup, with ns_setup and the release corrected, is Pam.OpenUser |
| Entry.SetUp | modules/pam_namespace/pam_namespace.c:1456-1471 | setup_namespace with the corrected ns_setup, and the corrected release after a failure, are Pam.Finish of the setup |
| Entry.CloseSession | modules/pam_namespace/pam_namespace.c:1478-1573 | pam_sm_close_session is Pam.CloseSession |

## Findings

| source | as written | input that shows it | evidently intended | confidence | as-written member | corrected member |
|---|---|---|---|---|---|---|
| modules/pam_namespace/pam_namespace.c:1030-1046 | ns_setup tests create_dirs' result with `retval < 0`, but create_dirs returns PAM_SUCCESS or the positive PAM_SESSION_ERR, so the bind mount is attempted after a failure | a `user` rule `/tmp /tmp-inst/ user` whose instance parent `/tmp-inst` has mode 0755: create_dirs fails, yet the bind of `/tmp-inst/alice` on `/tmp` is attempted; when that mount succeeds the instance is in place although ns_setup returns PAM_SESSION_ERR | bind-mount only when create_dirs succeeded | not executed | Provision.NsSetupAsWrittenExample | Provision.NsSetupBindsOnlyProvisioned |
| modules/pam_namespace/pam_namespace.c:1412-1418 | `require_selinux` tests `~(idata.flags & PAMNS_SELINUX_ENABLED)`, which is never zero, so the option always fails the session | `require_selinux` with SELinux enabled: the session is refused | refuse the session only when SELinux is not enabled (`!` instead of `~`) | not executed | Pam.RequireSelinuxAsWrittenAlwaysRejects | Pam.RequireSelinuxRejectsIff |
| modules/pam_namespace/pam_namespace.c:1456-1471 | after setup_namespace has stored the list in the PAM handle, a failure makes open_session call del_polydir_list as well, so the list is released twice | the list is stored and then unshare fails: clearing the slot runs cleanup_data, then open_session frees the list again. Or a later ns_setup fails: open_session frees the list and pam_end's cleanup frees it again | free the list in open_session only when no one else will | not executed | Pam.OpenSessionAsWrittenReleasesTwice | Pam.OpenSessionReleasesOnce |

The corrected definitions are the ones the rest of the model uses:

- `Provision.NsSetup` for ns_setup;
- `Pam.RequireSelinuxRejects` in `Pam.OpenArgs`;
- `Pam.Finish` in `Pam.OpenSession`.

The as-written versions are `Provision.NsSetupAsWritten`,
`Pam.OpenArgsAsWritten` (with `Pam.RequireSelinuxRejectsAsWritten`) and
`Pam.FinishAsWritten`. `Pam.OpenSessionAsWritten` puts all three
together. `Setup.Ctx.asWritten` chooses between the two ns_setups in the
setup loop, and `Session.NsSetup` carries the same choice as a
parameter.

The third finding relies on libpam's `pam_set_data`. When the slot is
replaced (here by NULL), it calls the old data's cleanup function, and
`pam_end` calls the cleanup of data still stored. libpam is not part of
this model. The model counts these releases as `ClearRules` actions and as
the handle still holding the list.

## Where the code and its documentation differ

The model follows the code.

- orig_namespace stops at the first failed umount with PAM_SESSION_ERR.
  It does not tolerate EINVAL there, and it then skips the tmpdir cleanup
  (lines 1334-1337). It is not a best-effort sweep.
- pam_sm_close_session ignores orig_namespace's result and always returns
  PAM_SUCCESS once the user is known (lines 1560-1572).
- inst_init only checks that the script exited normally. A non-zero exit
  code still counts as success (lines 800-805).
- In cleanup_tmpdirs, a failed fork or waitpid ends the sweep with
  PAM_SESSION_ERR. Both callers ignore that status. A failed `rm` is only
  logged (lines 1124-1140).
- parse_config_file keeps the rules of the lines before a failing line.
  pam_sm_open_session then frees the whole list (lines 1450-1454).

## Left out

- System calls (mount, umount, unshare, chdir, getcwd, stat, mkdir, mkdtemp, open, fchown, fchmod, rmdir) are not performed. Their outcomes are inputs and their effects are `Action`s.
- fork, execl and waitpid in inst_init and cleanup_tmpdirs are not modelled step by step. Each run is one `RunInit` or `RmTmp` action with an input outcome. Saving and restoring the SIGCHLD handler is one boolean.
- The SELinux calls (form_context, ctxt_based_inst_needed, is_selinux_enabled, fsetfilecon, setexeccon) are foreign library calls. Their results are inputs: is_selinux_enabled is a boolean, and the raw context is an optional string.
- The MD5 algorithm is an external crypto library. The digest is a parameter; only its hex formatting is modelled.
- fopen and getline are modelled by the file's text and its split into lines. pam_get_item and getpwnam are modelled by options and a map. pam_syslog and the debug output are left out, as they only log.
- pam_set_data and pam_get_data are modelled by the `SaveRules` and `ClearRules` actions, the `held` result and the `stored` input. libpam is not part of this model.
- Allocation failures (malloc, asprintf, strdup, alloca) are left out. They have no behaviour to verify.
- The cleanup_data callback is not a separate member. Its effect is the release counted for `ClearRules`.
- pam_namespace.h is not part of this model. The flag bits and the constants take the values Linux-PAM uses: PATH_MAX 4096, NAMESPACE_MAX_DIR_LEN 80, LOGIN_NAME_MAX 256.
- A Dafny `char` stands for one byte of a C string, so every length limit (PATH_MAX, the 7 spare bytes of a tmpdir prefix, NAMESPACE_MAX_DIR_LEN and the 47 of poly_name, LOGIN_NAME_MAX - 1 of strncat) counts bytes. Multibyte encodings are not modelled: a name of 41 two-byte characters is 41 characters here, not 82 bytes.
- Unsigned integer widths are not modelled. Uids, modes and lengths are unbounded naturals, and only the permission and mode masks are taken explicitly (`% 0x200`, `% 0x1000`).
- Each rule's system call outcomes in setup_namespace are indexed by the rule's position. Those of orig_namespace are indexed the same way. The working directory is a string that only getcwd and chdir change.
- Entry.ParseOpenArgs: proved equal to the corrected argument loop `Pam.OpenArgs`. The loop as written is `Pam.OpenArgsAsWritten`, with `Pam.OpenArgsAsWrittenStatus`.
- Entry.OpenSession: proved equal to the corrected `Pam.OpenSession`. pam_sm_open_session as written is the specification `Pam.OpenSessionAsWritten`, with no method of its own.
- Entry.OpenUser: proved equal to the corrected `Pam.OpenUser`. The version as written is `Pam.OpenUserAsWritten`.
- Entry.SetUp: runs the setup with the corrected ns_setup, and frees the list only when nothing has released it (the `Releases(acts) == 0` test). Lines 1469-1470 have no such test; `Pam.FinishAsWritten` models them.
- Pam.OpenArgsStatus: is about the corrected loop. The loop as written is in `Pam.OpenArgsAsWrittenStatus`.
- Session.ApplyRules, Session.SetupNamespace, Session.CreateDirs, Session.NsSetup, Namespace.InstanceData.ProcessLine and the other methods with `modifies` state their new state through `old(...)`. The properties are proved about the specification functions they equal.
