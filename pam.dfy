/**
  The PAM entry points of pam_namespace as specifications: the module
  arguments of pam_sm_open_session and pam_sm_close_session, the flag
  word they build, and what opening and closing a session do with the
  rule list, the namespace and the PAM handle's data slot.
 */
module Pam {
  import opened Types
  import opened CStrings
  import opened Paths
  import opened InstanceName
  import opened ConfigParser
  import opened Provision
  import opened Setup

  // ---------------------------------------------------------------------
  // The flag word

  /** Bits of `idata.flags` (pam_namespace.h is not part of this model; values as in Linux-PAM). */
  const DebugBit: bv32 := 0x100
  const SelinuxEnabledBit: bv32 := 0x400
  const CtxtBasedInstBit: bv32 := 0x800
  const GenHashBit: bv32 := 0x2000
  const IgnConfigErrBit: bv32 := 0x4000
  const IgnInstParentModeBit: bv32 := 0x8000
  const NoUnmountOnCloseBit: bv32 := 0x10000

  /** The flag word that a set of flags stands for. */
  function FlagWord(f: Flags): bv32 {
    (if f.debug then DebugBit else 0)
    | (if f.selinuxEnabled then SelinuxEnabledBit else 0)
    | (if f.ctxtBasedInst then CtxtBasedInstBit else 0)
    | (if f.genHash then GenHashBit else 0)
    | (if f.ignConfigErr then IgnConfigErrBit else 0)
    | (if f.ignInstParentMode then IgnInstParentModeBit else 0)
    | (if f.noUnmountOnClose then NoUnmountOnCloseBit else 0)
  }

  /** The SELinux bit of the word is set exactly when SELinux is enabled. */
  lemma SelinuxBit(f: Flags)
    ensures FlagWord(f) & SelinuxEnabledBit != 0 <==> f.selinuxEnabled
  {
  }

  /** The test of `require_selinux` as written: `~(flags & PAMNS_SELINUX_ENABLED)`. */
  predicate RequireSelinuxRejectsAsWritten(word: bv32) {
    !(word & SelinuxEnabledBit) != 0
  }

  /** As written the test holds for every flag word, so `require_selinux` always fails the session. */
  lemma RequireSelinuxAsWrittenAlwaysRejects(f: Flags)
    ensures f.selinuxEnabled ==> RequireSelinuxRejectsAsWritten(FlagWord(f))
    ensures RequireSelinuxRejectsAsWritten(FlagWord(f))
  {
    var w := FlagWord(f) & SelinuxEnabledBit;
    assert w == 0 || w == SelinuxEnabledBit;
  }

  /** The intended test, `!(flags & PAMNS_SELINUX_ENABLED)`. */
  predicate RequireSelinuxRejects(f: Flags) {
    FlagWord(f) & SelinuxEnabledBit == 0
  }

  /** It fails the session exactly when SELinux is not enabled. */
  lemma RequireSelinuxRejectsIff(f: Flags)
    ensures RequireSelinuxRejects(f) <==> !f.selinuxEnabled
  {
    SelinuxBit(f);
  }

  // ---------------------------------------------------------------------
  // Module arguments

  /** The flags as the options of pam_sm_open_session set them for one argument. */
  function OpenWord(f: Flags, a: string): Flags {
    f.(debug := f.debug || a == "debug",
       genHash := f.genHash || a == "gen_hash",
       ignConfigErr := f.ignConfigErr || a == "ignore_config_error",
       ignInstParentMode := f.ignInstParentMode || a == "ignore_instance_parent_mode")
  }

  /** The unmount mode after one argument. */
  function UnmntWord(u: Unmnt, a: string): Unmnt {
    if a == "unmnt_remnt" then UnmntRemnt else if a == "unmnt_only" then UnmntOnly else u
  }

  /** What the argument loop yields: its status, the flags and the unmount mode. */
  datatype Options = Options(status: Status, flags: Flags, unmnt: Unmnt)

  /**
    The argument loop of pam_sm_open_session from flags `f` and mode `u`:
    `require_selinux` ends it with PAM_SESSION_ERR when SELinux is not enabled.
   */
  function OpenArgs(argv: seq<string>, f: Flags, u: Unmnt): Options {
    if argv == [] then Options(Success, f, u)
    else
      var f' := OpenWord(f, argv[0]);
      var u' := UnmntWord(u, argv[0]);
      if argv[0] == "require_selinux" && RequireSelinuxRejects(f') then Options(SessionErr, f', u')
      else OpenArgs(argv[1..], f', u')
  }

  /** The argument loop as written, with the `~` test of `require_selinux`. */
  function OpenArgsAsWritten(argv: seq<string>, f: Flags, u: Unmnt): Options {
    if argv == [] then Options(Success, f, u)
    else
      var f' := OpenWord(f, argv[0]);
      var u' := UnmntWord(u, argv[0]);
      if argv[0] == "require_selinux" && RequireSelinuxRejectsAsWritten(FlagWord(f')) then Options(SessionErr, f', u')
      else OpenArgsAsWritten(argv[1..], f', u')
  }

  /**
    As written, the loop fails exactly when `require_selinux` is given, whether SELinux is
    enabled or not; without that word it is the intended loop.
   */
  lemma {:induction false} OpenArgsAsWrittenStatus(argv: seq<string>, f: Flags, u: Unmnt)
    ensures var o := OpenArgsAsWritten(argv, f, u);
            && (o.status == SessionErr <==> "require_selinux" in argv)
            && (o.status == Success || o.status == SessionErr)
            && ("require_selinux" !in argv ==> o == OpenArgs(argv, f, u))
    decreases |argv|
  {
    if argv != [] {
      var f' := OpenWord(f, argv[0]);
      RequireSelinuxAsWrittenAlwaysRejects(f');
      OpenArgsAsWrittenStatus(argv[1..], f', UnmntWord(u, argv[0]));
      assert argv == [argv[0]] + argv[1..];
    }
  }

  /** The last unmount option given, read from the end of the arguments. */
  function LastUnmnt(argv: seq<string>): Unmnt {
    if argv == [] then NoUnmnt
    else
      var a := argv[|argv| - 1];
      if a == "unmnt_only" then UnmntOnly
      else if a == "unmnt_remnt" then UnmntRemnt
      else LastUnmnt(argv[..|argv| - 1])
  }

  lemma {:induction false} LastUnmntCons(a: string, rest: seq<string>)
    ensures LastUnmnt([a] + rest) == if LastUnmnt(rest) != NoUnmnt then LastUnmnt(rest) else UnmntWord(NoUnmnt, a)
    decreases |rest|
  {
    if rest != [] {
      assert ([a] + rest)[..|rest|] == [a] + rest[..|rest| - 1];
      LastUnmntCons(a, rest[..|rest| - 1]);
    }
  }

  /** No unmount option means NO_UNMNT. */
  lemma {:induction false} LastUnmntNone(argv: seq<string>)
    ensures LastUnmnt(argv) == NoUnmnt <==> "unmnt_remnt" !in argv && "unmnt_only" !in argv
  {
    if argv != [] {
      var init := argv[..|argv| - 1];
      LastUnmntNone(init);
      assert argv == init + [argv[|argv| - 1]];
    }
  }

  /** The open-session loop fails exactly when `require_selinux` is given and SELinux is disabled. */
  lemma {:induction false} OpenArgsStatus(argv: seq<string>, f: Flags, u: Unmnt)
    ensures var o := OpenArgs(argv, f, u);
            && (o.status == SessionErr <==> "require_selinux" in argv && !f.selinuxEnabled)
            && (o.status == Success || o.status == SessionErr)
    decreases |argv|
  {
    if argv != [] {
      var f' := OpenWord(f, argv[0]);
      RequireSelinuxRejectsIff(f');
      OpenArgsStatus(argv[1..], f', UnmntWord(u, argv[0]));
      assert argv == [argv[0]] + argv[1..];
    }
  }

  /** When it succeeds each flag is set exactly when its word is given, and nothing else changes. */
  lemma {:induction false} OpenArgsFlags(argv: seq<string>, f: Flags, u: Unmnt)
    ensures var o := OpenArgs(argv, f, u);
            o.status == Success ==>
              o.flags == f.(debug := f.debug || "debug" in argv,
                            genHash := f.genHash || "gen_hash" in argv,
                            ignConfigErr := f.ignConfigErr || "ignore_config_error" in argv,
                            ignInstParentMode := f.ignInstParentMode || "ignore_instance_parent_mode" in argv)
    decreases |argv|
  {
    if argv != [] {
      var f' := OpenWord(f, argv[0]);
      OpenArgsFlags(argv[1..], f', UnmntWord(u, argv[0]));
      assert argv == [argv[0]] + argv[1..];
    }
  }

  /** When it succeeds the last of `unmnt_remnt` and `unmnt_only` decides the unmount mode. */
  lemma {:induction false} OpenArgsUnmnt(argv: seq<string>, f: Flags, u: Unmnt)
    ensures var o := OpenArgs(argv, f, u);
            o.status == Success ==> o.unmnt == if LastUnmnt(argv) == NoUnmnt then u else LastUnmnt(argv)
    decreases |argv|
  {
    if argv != [] {
      var f' := OpenWord(f, argv[0]);
      OpenArgsUnmnt(argv[1..], f', UnmntWord(u, argv[0]));
      assert argv == [argv[0]] + argv[1..];
      LastUnmntCons(argv[0], argv[1..]);
    }
  }

  /** The flags as the options of pam_sm_close_session set them for one argument. */
  function CloseWord(f: Flags, a: string): Flags {
    f.(debug := f.debug || a == "debug",
       ignConfigErr := f.ignConfigErr || a == "ignore_config_error",
       noUnmountOnClose := f.noUnmountOnClose || a == "no_unmount_on_close")
  }

  /** The argument loop of pam_sm_close_session. */
  function CloseArgs(argv: seq<string>, f: Flags): Flags {
    if argv == [] then f else CloseArgs(argv[1..], CloseWord(f, argv[0]))
  }

  /** Each close-session flag is set exactly when its word is given; nothing else changes. */
  lemma {:induction false} CloseArgsMeaning(argv: seq<string>, f: Flags)
    ensures CloseArgs(argv, f) == f.(debug := f.debug || "debug" in argv,
                                     ignConfigErr := f.ignConfigErr || "ignore_config_error" in argv,
                                     noUnmountOnClose := f.noUnmountOnClose || "no_unmount_on_close" in argv)
    decreases |argv|
  {
    if argv != [] {
      CloseArgsMeaning(argv[1..], CloseWord(f, argv[0]));
      assert argv == [argv[0]] + argv[1..];
    }
  }

  // ---------------------------------------------------------------------
  // Sessions

  /** The flags before the arguments: SELinux facts only when compiled WITH_SELINUX. */
  function InitialFlags(withSelinux: bool, selinuxEnabled: bool, ctxtBasedInst: bool): Flags {
    Flags(withSelinux, false, withSelinux && selinuxEnabled, withSelinux && ctxtBasedInst,
          false, false, false, false)
  }

  /** strncat into the LOGIN_NAME_MAX buffer: the first LOGIN_NAME_MAX - 1 characters are kept, or the whole name if shorter. */
  function Truncate(s: string, n: nat): (r: string)
    ensures r <= s && |r| <= n && (|s| <= n ==> r == s)
    ensures |r| == if |s| <= n then |s| else n
  {
    if |s| <= n then s else s[..n]
  }

  /** What a session meets: PAM items, the passwd database, the system and the helpers. */
  datatype PamEnv = PamEnv(
    withSelinux: bool,             // compiled WITH_SELINUX
    selinuxEnabled: bool,          // is_selinux_enabled()
    ctxtBasedInst: bool,           // ctxt_based_inst_needed()
    pamUser: Option<string>,       // PAM_USER
    ruser: Option<string>,         // PAM_RUSER
    users: map<string, Passwd>,    // getpwnam
    realUid: Uid,                  // getuid()
    config: Option<string>,        // the configuration file, None when it cannot be opened
    cwd: string,
    storeOk: bool,                 // pam_set_data of the rule list
    unshareOk: bool,
    envs: nat -> RuleEnv,
    cleanup: CleanupEnv,
    md5: string -> Digest)

  /** The result of opening a session: status, whether the PAM handle holds the rule list, calls. */
  datatype Opened = Opened(status: Status, held: bool, actions: seq<Action>)

  /** How often the rule list is released by these calls (del_polydir_list, or clearing the slot that owns it). */
  function Releases(actions: seq<Action>): nat {
    if actions == [] then 0
    else (if actions[0] == FreeRules || actions[0] == ClearRules then 1 else 0) + Releases(actions[1..])
  }

  /**
    The context setup_namespace runs in for the user `name`: the name as kept in the instance
    data, and its uid, with ns_setup corrected.
   */
  function UserCtx(o: Options, name: string, env: PamEnv): Ctx
    requires name in env.users
  {
    Ctx(Truncate(name, LoginNameMax - 1), env.users[name].uid, ReqUid(env.ruser, env.users, env.realUid),
        o.flags, o.unmnt, env.md5, false)
  }

  /** parse_config_file for the user `name`. */
  function UserRules(o: Options, name: string, env: PamEnv): (Status, seq<PolyDir>) {
    ParseConfig(env.config, Truncate(name, LoginNameMax - 1), env.users, o.flags)
  }

  /** setup_namespace for the user `name` over `rules`. */
  function UserSetup(rules: seq<PolyDir>, o: Options, name: string, env: PamEnv): SetupResult
    requires name in env.users
  {
    SetupNamespace(rules, env.cwd, UserCtx(o, name, env), env.storeOk, env.unshareOk, env.envs, env.cleanup)
  }

  /** setup_namespace for the user `name` over `rules`, with ns_setup as written. */
  function UserSetupAsWritten(rules: seq<PolyDir>, o: Options, name: string, env: PamEnv): SetupResult
    requires name in env.users
  {
    SetupNamespace(rules, env.cwd, UserCtx(o, name, env).(asWritten := true), env.storeOk, env.unshareOk, env.envs,
                   env.cleanup)
  }

  /**
    The end of pam_sm_open_session, with the rule list released exactly once: after a
    failed setup the list is freed only when neither the PAM handle holds it nor
    clearing the handle's slot has already released it.
   */
  function Finish(r: SetupResult): Opened {
    if r.status != Success && !r.held && Releases(r.actions) == 0 then Opened(r.status, r.held, r.actions + [FreeRules])
    else Opened(r.status, r.held, r.actions)
  }

  /** The end of pam_sm_open_session as written: after any failed setup the list is freed again. */
  function FinishAsWritten(r: SetupResult): Opened {
    if r.status != Success then Opened(r.status, r.held, r.actions + [FreeRules])
    else Opened(r.status, r.held, r.actions)
  }

  /** pam_sm_open_session once the user `name` is known: parse the configuration, set up the namespace if there is a rule. */
  function OpenUser(o: Options, name: string, env: PamEnv): Opened
    requires name in env.users
  {
    var parsed := UserRules(o, name, env);
    if parsed.0 != Success then Opened(SessionErr, false, [FreeRules])
    else if parsed.1 == [] then Opened(Success, false, [])
    else Finish(UserSetup(parsed.1, o, name, env))
  }

  /** The same as pam_namespace.c writes it: ns_setup and the end of pam_sm_open_session as written. */
  function OpenUserAsWritten(o: Options, name: string, env: PamEnv): Opened
    requires name in env.users
  {
    var parsed := UserRules(o, name, env);
    if parsed.0 != Success then Opened(SessionErr, false, [FreeRules])
    else if parsed.1 == [] then Opened(Success, false, [])
    else FinishAsWritten(UserSetupAsWritten(parsed.1, o, name, env))
  }

  /** pam_sm_open_session: the arguments, then PAM_USER and its passwd entry, then the rules. */
  function OpenSession(argv: seq<string>, env: PamEnv): Opened {
    var o := OpenArgs(argv, InitialFlags(env.withSelinux, env.selinuxEnabled, env.ctxtBasedInst), NoUnmnt);
    if o.status != Success then Opened(o.status, false, [])
    else if env.pamUser.None? || env.pamUser.value !in env.users then Opened(SessionErr, false, [])
    else OpenUser(o, env.pamUser.value, env)
  }

  /** pam_sm_open_session as written: the `require_selinux` test, ns_setup and the end of the session setup. */
  function OpenSessionAsWritten(argv: seq<string>, env: PamEnv): Opened {
    var o := OpenArgsAsWritten(argv, InitialFlags(env.withSelinux, env.selinuxEnabled, env.ctxtBasedInst), NoUnmnt);
    if o.status != Success then Opened(o.status, false, [])
    else if env.pamUser.None? || env.pamUser.value !in env.users then Opened(SessionErr, false, [])
    else OpenUserAsWritten(o, env.pamUser.value, env)
  }

  /** A list the handle holds is released once more when the handle ends (pam_end). */
  function Lifetime(r: Opened): nat {
    Releases(r.actions) + if r.held then 1 else 0
  }

  lemma {:induction false} ReleasesConcat(a: seq<Action>, b: seq<Action>)
    ensures Releases(a + b) == Releases(a) + Releases(b)
    decreases |a|
  {
    if a == [] {
      assert a + b == b;
    } else {
      assert (a + b)[1..] == a[1..] + b;
      ReleasesConcat(a[1..], b);
    }
  }

  /** The calls of the setup loop and of the cleanup never touch the rule list's ownership. */
  lemma {:induction false} NoReleaseInCleanup(rules: seq<PolyDir>, env: CleanupEnv)
    ensures Releases(CleanupFrom(rules, env).actions) == 0
    decreases |rules|
  {
    if rules != [] {
      NoReleaseInCleanup(rules[1..], env);
    }
  }

  /** A step's calls never release the rule list. */
  predicate NoRelease(actions: seq<Action>) {
    forall a :: a in actions ==> a != FreeRules && a != ClearRules
  }

  lemma {:induction false} NoReleaseCount(actions: seq<Action>)
    requires NoRelease(actions)
    ensures Releases(actions) == 0
    decreases |actions|
  {
    if actions != [] {
      assert actions[0] in actions;
      assert forall a :: a in actions[1..] ==> a in actions;
      NoReleaseCount(actions[1..]);
    }
  }

  lemma NoReleaseInNsSetup(asWritten: bool, p: PolyDir, user: string, flags: Flags, md5: string -> Digest,
                           env: SetupEnv)
    ensures NoRelease(NsSetupBy(asWritten, p, user, flags, md5, env).actions)
  {
    NsSetupAsWrittenAgrees(p, user, flags, md5, env);
    if p.meth == TmpFs {
      InstInitFileCalls(p.dir, "tmpfs", true, user, env.dirs.init);
    } else {
      var n := PolyName(p.meth, user, flags, env.name, md5);
      if n.Some? {
        CreateDirsFileCalls(p, p.instancePrefix + n.value, user, flags, env.dirs);
      }
    }
  }

  lemma NoReleaseInSetupRule(p: PolyDir, mode: Unmnt, cwd: string, ctx: Ctx, env: RuleEnv)
    ensures NoRelease(SetupRule(p, mode, cwd, ctx, env).actions)
  {
    var m := if mode == NoUnmnt then Moved(Success, cwd, []) else Unmount(p.dir, cwd, env);
    assert NoRelease(m.actions);
    NoReleaseInNsSetup(ctx.asWritten, p, ctx.user, ctx.flags, ctx.md5, env.setup);
  }

  lemma {:induction false} NoReleaseInApplyRules(rules: seq<PolyDir>, k: nat, cwd: string, ctx: Ctx,
                                                 envs: nat -> RuleEnv)
    ensures NoRelease(ApplyRules(rules, k, cwd, ctx, envs).actions)
    decreases |rules|
  {
    if rules != [] {
      match DirUnmnt(rules[0], ctx.uid, ctx.reqUid, ctx.unmnt)
      case None =>
        NoReleaseInApplyRules(rules[1..], k + 1, cwd, ctx, envs);
      case Some(mode) =>
        var s := SetupRule(rules[0], mode, cwd, ctx, envs(k));
        NoReleaseInSetupRule(rules[0], mode, cwd, ctx, envs(k));
        NoReleaseInApplyRules(rules[1..], k + 1, s.cwd, ctx, envs);
    }
  }

  /** How often setup_namespace itself releases the list: once when it frees or clears it, else never. */
  lemma SetupReleases(rules: seq<PolyDir>, cwd: string, ctx: Ctx, storeOk: bool, unshareOk: bool,
                      envs: nat -> RuleEnv, cl: CleanupEnv)
    ensures var r := SetupNamespace(rules, cwd, ctx, storeOk, unshareOk, envs, cl);
            && Releases(r.actions) == (if r.held || (NeedsPoly(rules, ctx.uid, ctx.reqUid, ctx.unmnt) && !storeOk) then 0 else 1)
            && (r.held ==> r.status == Success || Releases(r.actions) == 0)
  {
    var r := SetupNamespace(rules, cwd, ctx, storeOk, unshareOk, envs, cl);
    if NeedsPoly(rules, ctx.uid, ctx.reqUid, ctx.unmnt) && storeOk && unshareOk {
      var w := ApplyRules(rules, 0, cwd, ctx, envs);
      NoReleaseInApplyRules(rules, 0, cwd, ctx, envs);
      NoReleaseCount(w.actions);
      var cleanup := if w.status != Success then CleanupTmpdirs(w.rules, cl).actions else [];
      if w.status != Success && cl.signalOk {
        NoReleaseInCleanup(w.rules, cl);
      }
      ReleasesConcat([SaveRules, Unshare], w.actions);
      ReleasesConcat([SaveRules, Unshare] + w.actions, cleanup);
    }
  }

  /** Finish adds a release only when the setup made none and left the handle without the list. */
  lemma FinishLifetime(r: SetupResult)
    requires Releases(r.actions) <= 1 && (r.held ==> Releases(r.actions) == 0)
    ensures Lifetime(Finish(r)) <= 1
    ensures r.status != Success && Lifetime(Opened(r.status, r.held, r.actions)) == 1 ==>
              Lifetime(Finish(r)) == 1 && Lifetime(FinishAsWritten(r)) == 2
  {
    ReleasesConcat(r.actions, [FreeRules]);
    assert Releases([FreeRules]) == 1;
  }

  /** Opening a session releases the rule list at most once over the life of the PAM handle. */
  lemma OpenSessionReleasesOnce(argv: seq<string>, env: PamEnv)
    ensures Lifetime(OpenSession(argv, env)) <= 1
  {
    var o := OpenArgs(argv, InitialFlags(env.withSelinux, env.selinuxEnabled, env.ctxtBasedInst), NoUnmnt);
    if o.status == Success && env.pamUser.Some? && env.pamUser.value in env.users {
      var name := env.pamUser.value;
      assert OpenSession(argv, env) == OpenUser(o, name, env);
      var parsed := UserRules(o, name, env);
      if parsed.0 == Success && parsed.1 != [] {
        var r := UserSetup(parsed.1, o, name, env);
        SetupReleases(parsed.1, env.cwd, UserCtx(o, name, env), env.storeOk, env.unshareOk, env.envs, env.cleanup);
        FinishLifetime(r);
        assert OpenUser(o, name, env) == Finish(r);
      }
    }
  }

  /** As written, `require_selinux` fails every session before PAM_USER is even read, SELinux or not. */
  lemma OpenSessionAsWrittenRequireSelinux(argv: seq<string>, env: PamEnv)
    requires "require_selinux" in argv
    ensures OpenSessionAsWritten(argv, env) == Opened(SessionErr, false, [])
  {
    OpenArgsAsWrittenStatus(argv, InitialFlags(env.withSelinux, env.selinuxEnabled, env.ctxtBasedInst), NoUnmnt);
  }

  /**
    As written, a setup that fails after the list was handed to the PAM handle releases
    it twice: through clearing the slot and del_polydir_list when unshare fails, or through
    del_polydir_list and the handle's own cleanup otherwise.  (With `require_selinux` the
    session as written fails before any rule is read.)
   */
  lemma OpenSessionAsWrittenReleasesTwice(argv: seq<string>, env: PamEnv)
    requires "require_selinux" !in argv
    requires env.pamUser.Some? && env.pamUser.value in env.users
    requires var o := OpenArgs(argv, InitialFlags(env.withSelinux, env.selinuxEnabled, env.ctxtBasedInst), NoUnmnt);
             var name := env.pamUser.value;
             var parsed := UserRules(o, name, env);
             && parsed.0 == Success && parsed.1 != [] && env.storeOk
             && NeedsPoly(parsed.1, env.users[name].uid, ReqUid(env.ruser, env.users, env.realUid), o.unmnt)
    requires OpenSessionAsWritten(argv, env).status != Success
    ensures Lifetime(OpenSessionAsWritten(argv, env)) == 2
    ensures Lifetime(OpenSession(argv, env)) == 1
  {
    var f := InitialFlags(env.withSelinux, env.selinuxEnabled, env.ctxtBasedInst);
    var o := OpenArgs(argv, f, NoUnmnt);
    OpenArgsAsWrittenStatus(argv, f, NoUnmnt);
    OpenArgsStatus(argv, f, NoUnmnt);
    var name := env.pamUser.value;
    assert OpenSession(argv, env) == OpenUser(o, name, env);
    assert OpenSessionAsWritten(argv, env) == OpenUserAsWritten(o, name, env);
    var parsed := UserRules(o, name, env);
    var ctx := UserCtx(o, name, env);
    var r := UserSetup(parsed.1, o, name, env);
    var a := UserSetupAsWritten(parsed.1, o, name, env);
    assert OpenUser(o, name, env) == Finish(r);
    assert OpenUserAsWritten(o, name, env) == FinishAsWritten(a);
    SetupNamespaceAsWrittenAgrees(parsed.1, env.cwd, ctx, env.storeOk, env.unshareOk, env.envs, env.cleanup);
    assert ctx.(asWritten := false) == ctx;
    SetupReleases(parsed.1, env.cwd, ctx, env.storeOk, env.unshareOk, env.envs, env.cleanup);
    SetupReleases(parsed.1, env.cwd, ctx.(asWritten := true), env.storeOk, env.unshareOk, env.envs, env.cleanup);
    FinishLifetime(r);
    FinishLifetime(a);
  }

  /** What closing a session meets. */
  datatype CloseEnv = CloseEnv(
    withSelinux: bool,
    selinuxEnabled: bool,
    ctxtBasedInst: bool,
    pamUser: Option<string>,
    users: map<string, Passwd>,
    stored: Option<seq<PolyDir>>,  // pam_get_data of the rule list
    umountOk: nat -> bool,
    cleanup: CleanupEnv)

  /**
    pam_sm_close_session: with no_unmount_on_close nothing is done; otherwise the user
    must be known, and the stored rules, if any, are unmounted and cleaned up (whatever
    the outcome) and the handle's slot is cleared.
   */
  function CloseSession(argv: seq<string>, env: CloseEnv): Run {
    var flags := CloseArgs(argv, InitialFlags(env.withSelinux, env.selinuxEnabled, env.ctxtBasedInst));
    if flags.noUnmountOnClose then Run(Success, [])
    else if env.pamUser.None? || env.pamUser.value !in env.users then Run(SessionErr, [])
    else if env.stored.None? then Run(Success, [])
    else
      var uid := env.users[env.pamUser.value].uid;
      var r := OrigNamespace(env.stored.value, uid, env.umountOk, env.cleanup);
      Run(Success, r.actions + [ClearRules])
  }

  /** Closing fails only for a missing or unknown user, and always clears a stored list, once. */
  lemma CloseSessionOutcome(argv: seq<string>, env: CloseEnv)
    ensures var r := CloseSession(argv, env);
            var flags := CloseArgs(argv, InitialFlags(env.withSelinux, env.selinuxEnabled, env.ctxtBasedInst));
            && (r.status != Success <==>
                  !flags.noUnmountOnClose && (env.pamUser.None? || env.pamUser.value !in env.users))
            && (flags.noUnmountOnClose ==> r.actions == [])
            && (r.status == Success && env.stored.Some? && !flags.noUnmountOnClose ==>
                  r.actions[|r.actions| - 1] == ClearRules)
  {
  }

  /** `no_unmount_on_close` among the arguments leaves the namespace and the handle alone. */
  lemma CloseSessionNoUnmount(argv: seq<string>, env: CloseEnv)
    requires "no_unmount_on_close" in argv
    ensures CloseSession(argv, env) == Run(Success, [])
  {
    CloseArgsMeaning(argv, InitialFlags(env.withSelinux, env.selinuxEnabled, env.ctxtBasedInst));
  }
}
