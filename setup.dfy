/**
  The namespace decisions of a session: which rules need polyinstantiation
  for the user (setup_namespace), unmounting before re-mounting, the
  removal of tmpdir instances (cleanup_tmpdirs) and the unmounting at the
  end of the session (orig_namespace).  These are the specifications the
  methods of module Session are proved against.
 */
module Setup {
  import opened Types
  import opened CStrings
  import opened Paths
  import opened InstanceName
  import opened Override
  import opened Provision

  /**
    What setup_namespace needs about the session: the user, both uids, the options and the
    hash; `asWritten` chooses ns_setup as pam_namespace.c writes it over the corrected one.
   */
  datatype Ctx = Ctx(user: string, uid: Uid, reqUid: Uid, flags: Flags, unmnt: Unmnt,
                     md5: string -> Digest, asWritten: bool)

  /** req_uid: the uid of PAM_RUSER when it is set and known, else the real uid. */
  function ReqUid(ruser: Option<string>, users: map<string, Passwd>, realUid: Uid): Uid {
    if ruser.Some? && ruser.value in users then users[ruser.value].uid else realUid
  }

  /**
    The unmount mode setup_namespace uses for a rule, or None when the rule is skipped:
    a rule overridden for the user is skipped unless unmounting was requested and the
    rule is not overridden for the requesting user, in which case it is only unmounted.
   */
  function DirUnmnt(p: PolyDir, uid: Uid, reqUid: Uid, unmnt: Unmnt): Option<Unmnt> {
    if !IsOverride(p, uid) then Some(unmnt)
    else if unmnt == NoUnmnt || IsOverride(p, reqUid) then None
    else Some(UnmntOnly)
  }

  /** need_poly: some rule is not skipped. */
  predicate NeedsPoly(rules: seq<PolyDir>, uid: Uid, reqUid: Uid, unmnt: Unmnt) {
    exists i :: 0 <= i < |rules| && DirUnmnt(rules[i], uid, reqUid, unmnt).Some?
  }

  /** What the loop of setup_namespace meets for one rule. */
  datatype RuleEnv = RuleEnv(
    cwdOk: bool,               // getcwd succeeds
    chdirOk: bool,
    umountErr: Option<Errno>,  // None when umount succeeds
    setup: SetupEnv)

  /** A status, the working directory and the calls made. */
  datatype Moved = Moved(status: Status, cwd: string, actions: seq<Action>)

  /**
    The unmount part of the loop: leave the polydir first if the working directory is
    inside it (a failing chdir is only logged), then unmount it; EINVAL (not mounted)
    is tolerated.
   */
  function Unmount(dir: string, cwd: string, env: RuleEnv): Moved {
    match CwdIn(if env.cwdOk then Some(cwd) else None, dir)
    case CwdFailed => Moved(SessionErr, cwd, [])
    case Inside =>
      var cwd' := if env.chdirOk then PolyParent(dir) else cwd;
      var acts := [Chdir(PolyParent(dir)), Umount(dir)];
      if env.umountErr.Some? && env.umountErr.value != EINVAL then Moved(SessionErr, cwd', acts)
      else Moved(Success, cwd', acts)
    case Outside =>
      if env.umountErr.Some? && env.umountErr.value != EINVAL then Moved(SessionErr, cwd, [Umount(dir)])
      else Moved(Success, cwd, [Umount(dir)])
  }

  /** The result of one iteration: status, the rule as left, the working directory, the calls. */
  datatype Step = Step(status: Status, rule: PolyDir, cwd: string, actions: seq<Action>)

  /** One iteration of the setup loop for a rule that is not skipped. */
  function SetupRule(p: PolyDir, mode: Unmnt, cwd: string, ctx: Ctx, env: RuleEnv): Step {
    var m := if mode == NoUnmnt then Moved(Success, cwd, []) else Unmount(p.dir, cwd, env);
    if m.status != Success || mode == UnmntOnly then Step(m.status, p, m.cwd, m.actions)
    else
      var r := NsSetupBy(ctx.asWritten, p, ctx.user, ctx.flags, ctx.md5, env.setup);
      Step(r.status, r.rule, m.cwd, m.actions + r.actions)
  }

  /** The whole loop: the status, the rules as left, the working directory and the calls. */
  datatype Walk = Walk(status: Status, rules: seq<PolyDir>, cwd: string, actions: seq<Action>)

  /** The second loop of setup_namespace from the rule at position `k` on, stopping at the first failure. */
  function ApplyRules(rules: seq<PolyDir>, k: nat, cwd: string, ctx: Ctx, envs: nat -> RuleEnv): (w: Walk)
    ensures |w.rules| == |rules|
    decreases |rules|
  {
    if rules == [] then Walk(Success, [], cwd, [])
    else match DirUnmnt(rules[0], ctx.uid, ctx.reqUid, ctx.unmnt)
      case None =>
        var w := ApplyRules(rules[1..], k + 1, cwd, ctx, envs);
        Walk(w.status, [rules[0]] + w.rules, w.cwd, w.actions)
      case Some(mode) =>
        var s := SetupRule(rules[0], mode, cwd, ctx, envs(k));
        if s.status != Success then Walk(s.status, [s.rule] + rules[1..], s.cwd, s.actions)
        else
          var w := ApplyRules(rules[1..], k + 1, s.cwd, ctx, envs);
          Walk(w.status, [s.rule] + w.rules, w.cwd, s.actions + w.actions)
  }

  /** What cleanup_tmpdirs meets: signal(SIGCHLD), which instance prefixes exist, how each removal ends. */
  datatype CleanupEnv = CleanupEnv(signalOk: bool, present: set<string>, rm: string -> RunEnd)

  /** The loop of cleanup_tmpdirs: `rm -rf` of every existing tmpdir instance; only fork and wait failures stop it. */
  function CleanupFrom(rules: seq<PolyDir>, env: CleanupEnv): Run {
    if rules == [] then Run(Success, [])
    else
      var p := rules[0];
      if p.meth == TmpDir && p.instancePrefix in env.present then
        match env.rm(p.instancePrefix)
        case ForkFails => Run(SessionErr, [])
        case WaitFails => Run(SessionErr, [RmTmp(p.instancePrefix)])
        case _ =>
          var r := CleanupFrom(rules[1..], env);
          Run(r.status, [RmTmp(p.instancePrefix)] + r.actions)
      else CleanupFrom(rules[1..], env)
  }

  /** cleanup_tmpdirs. */
  function CleanupTmpdirs(rules: seq<PolyDir>, env: CleanupEnv): Run {
    if !env.signalOk then Run(SessionErr, []) else CleanupFrom(rules, env)
  }

  /** The result of setup_namespace; `held` says whether the PAM handle holds the rule list afterwards. */
  datatype SetupResult = SetupResult(status: Status, rules: seq<PolyDir>, held: bool, cwd: string,
                                     actions: seq<Action>)

  /**
    setup_namespace: without any rule to apply the list is freed (left empty); otherwise it is stored in
    the PAM handle (PAM_SYSTEM_ERR if that fails), the process leaves the parent's mount
    namespace (on failure the stored list is cleared again), the rules are applied, and after
    a failure the tmpdir instances are removed.  The cleanup's own status is not used.
   */
  function SetupNamespace(rules: seq<PolyDir>, cwd: string, ctx: Ctx, storeOk: bool, unshareOk: bool,
                          envs: nat -> RuleEnv, cl: CleanupEnv): SetupResult
  {
    if !NeedsPoly(rules, ctx.uid, ctx.reqUid, ctx.unmnt) then SetupResult(Success, [], false, cwd, [FreeRules])
    else if !storeOk then SetupResult(SystemErr, rules, false, cwd, [SaveRules])
    else if !unshareOk then SetupResult(SessionErr, rules, false, cwd, [SaveRules, Unshare, ClearRules])
    else
      var w := ApplyRules(rules, 0, cwd, ctx, envs);
      var cleanup := if w.status != Success then CleanupTmpdirs(w.rules, cl).actions else [];
      SetupResult(w.status, w.rules, true, w.cwd, [SaveRules, Unshare] + w.actions + cleanup)
  }

  /** The loop of orig_namespace from position `k`: unmount every rule that applies; the first failure ends it. */
  function OrigFrom(rules: seq<PolyDir>, k: nat, uid: Uid, umountOk: nat -> bool): Run
    decreases |rules|
  {
    if rules == [] then Run(Success, [])
    else if IsOverride(rules[0], uid) then OrigFrom(rules[1..], k + 1, uid, umountOk)
    else if !umountOk(k) then Run(SessionErr, [Umount(rules[0].dir)])
    else
      var r := OrigFrom(rules[1..], k + 1, uid, umountOk);
      Run(r.status, [Umount(rules[0].dir)] + r.actions)
  }

  /** orig_namespace: the unmounts, then the tmpdir cleanup, which a failed unmount skips. */
  function OrigNamespace(rules: seq<PolyDir>, uid: Uid, umountOk: nat -> bool, cl: CleanupEnv): Run {
    var r := OrigFrom(rules, 0, uid, umountOk);
    if r.status != Success then r
    else Run(Success, r.actions + CleanupTmpdirs(rules, cl).actions)
  }

  // ---------------------------------------------------------------------
  // Which rules apply

  /** Polyinstantiation is needed exactly when a rule applies to the user, or unmounting was asked for a rule that applies to the requesting user. */
  lemma NeedsPolyIff(rules: seq<PolyDir>, uid: Uid, reqUid: Uid, unmnt: Unmnt)
    ensures NeedsPoly(rules, uid, reqUid, unmnt) <==>
              exists i :: 0 <= i < |rules| &&
                (!IsOverride(rules[i], uid) || (unmnt != NoUnmnt && !IsOverride(rules[i], reqUid)))
  {
    if NeedsPoly(rules, uid, reqUid, unmnt) {
      var i :| 0 <= i < |rules| && DirUnmnt(rules[i], uid, reqUid, unmnt).Some?;
      assert !IsOverride(rules[i], uid) || (unmnt != NoUnmnt && !IsOverride(rules[i], reqUid));
    }
    if exists i :: 0 <= i < |rules| &&
         (!IsOverride(rules[i], uid) || (unmnt != NoUnmnt && !IsOverride(rules[i], reqUid))) {
      var i :| 0 <= i < |rules| &&
         (!IsOverride(rules[i], uid) || (unmnt != NoUnmnt && !IsOverride(rules[i], reqUid)));
      assert DirUnmnt(rules[i], uid, reqUid, unmnt).Some?;
    }
  }

  /** A rule overridden for the user is at most unmounted, never set up again. */
  lemma OverriddenOnlyUnmounted(p: PolyDir, uid: Uid, reqUid: Uid, unmnt: Unmnt)
    requires IsOverride(p, uid)
    ensures DirUnmnt(p, uid, reqUid, unmnt) in {None, Some(UnmntOnly)}
    ensures DirUnmnt(p, uid, reqUid, unmnt) == Some(UnmntOnly) <==> unmnt != NoUnmnt && !IsOverride(p, reqUid)
  {
  }

  // ---------------------------------------------------------------------
  // One rule

  /** The instance of a rule (tmpfs or bind mount) appears among the calls. */
  ghost predicate MountedIn(dir: string, actions: seq<Action>) {
    MountTmpfs(dir) in actions || exists ipath :: Bind(ipath, dir) in actions
  }

  /** A successful ns_setup has mounted the rule's instance on its polydir. */
  lemma NsSetupMounts(p: PolyDir, user: string, flags: Flags, md5: string -> Digest, env: SetupEnv)
    requires NsSetup(p, user, flags, md5, env).status == Success
    ensures MountedIn(p.dir, NsSetup(p, user, flags, md5, env).actions)
  {
    var r := NsSetup(p, user, flags, md5, env);
    if p.meth != TmpFs {
      var c := CreateDirs(p, p.instancePrefix + PolyName(p.meth, user, flags, env.name, md5).value,
                          user, flags, env.dirs);
      assert r.actions[|r.actions| - 1] == Bind(c.ipath, p.dir);
    }
  }

  /** Leaving the polydir works: if the cwd was inside and chdir succeeded, the new cwd is outside. */
  lemma UnmountLeavesPolydir(dir: string, cwd: string, env: RuleEnv)
    requires Absolute(dir) && |dir| > 1
    requires env.cwdOk && env.chdirOk && CwdIn(Some(cwd), dir) == Inside
    ensures CwdIn(Some(Unmount(dir, cwd, env).cwd), dir) == Outside
    ensures Unmount(dir, cwd, env).actions == [Chdir(PolyParent(dir)), Umount(dir)]
  {
    PolyParentOutside(dir);
  }

  /**
    Unmounting succeeds exactly when the working directory can be read and umount
    succeeds or reports EINVAL; it always ends with the umount call then.
   */
  lemma UnmountStatus(dir: string, cwd: string, env: RuleEnv)
    ensures var m := Unmount(dir, cwd, env);
            && (m.status == Success <==> env.cwdOk && (env.umountErr.None? || env.umountErr.value == EINVAL))
            && (m.status == Success || m.status == SessionErr)
            && (env.cwdOk ==> m.actions[|m.actions| - 1] == Umount(dir))
            && (!env.cwdOk ==> m.actions == [])
  {
  }

  /** With unmnt_only a rule is only unmounted: the rule is unchanged and nothing is mounted or created. */
  lemma SetupRuleUnmountOnly(p: PolyDir, cwd: string, ctx: Ctx, env: RuleEnv)
    ensures var s := SetupRule(p, UnmntOnly, cwd, ctx, env);
            && s.rule == p
            && (forall a :: a in s.actions ==> a.Chdir? || a == Umount(p.dir))
  {
  }

  /** With unmnt_remnt the polydir is unmounted before its instance is mounted again. */
  lemma SetupRuleRemount(p: PolyDir, cwd: string, ctx: Ctx, env: RuleEnv)
    requires SetupRule(p, UnmntRemnt, cwd, ctx, env).status == Success
    ensures var s := SetupRule(p, UnmntRemnt, cwd, ctx, env);
            var m := Unmount(p.dir, cwd, env);
            && m.status == Success
            && s.actions == m.actions + NsSetupBy(ctx.asWritten, p, ctx.user, ctx.flags, ctx.md5, env.setup).actions
            && m.actions[|m.actions| - 1] == Umount(p.dir)
  {
  }

  // ---------------------------------------------------------------------
  // The loop

  /** Rules that are skipped are left as they are, and others change only as create_dirs changes them. */
  lemma {:induction false} ApplyRulesKeepsRules(rules: seq<PolyDir>, k: nat, cwd: string, ctx: Ctx,
                                                envs: nat -> RuleEnv, i: nat)
    requires i < |rules|
    ensures var w := ApplyRules(rules, k, cwd, ctx, envs);
            && w.rules[i].dir == rules[i].dir && w.rules[i].uids == rules[i].uids
            && w.rules[i].exclusive == rules[i].exclusive
            && (rules[i].meth != TmpDir ==> w.rules[i] == rules[i])
            && (DirUnmnt(rules[i], ctx.uid, ctx.reqUid, ctx.unmnt).None? ==> w.rules[i] == rules[i])
    decreases |rules|
  {
    match DirUnmnt(rules[0], ctx.uid, ctx.reqUid, ctx.unmnt)
    case None =>
      if i > 0 {
        ApplyRulesKeepsRules(rules[1..], k + 1, cwd, ctx, envs, i - 1);
        assert rules[1..][i - 1] == rules[i];
      }
    case Some(mode) =>
      var s := SetupRule(rules[0], mode, cwd, ctx, envs(k));
      if i == 0 {
        SetupRuleKeepsRule(rules[0], mode, cwd, ctx, envs(k));
      } else if s.status == Success {
        ApplyRulesKeepsRules(rules[1..], k + 1, s.cwd, ctx, envs, i - 1);
        assert rules[1..][i - 1] == rules[i];
      }
  }

  /** One iteration changes a rule only as create_dirs does. */
  lemma SetupRuleKeepsRule(p: PolyDir, mode: Unmnt, cwd: string, ctx: Ctx, env: RuleEnv)
    ensures var s := SetupRule(p, mode, cwd, ctx, env);
            && s.rule.dir == p.dir && s.rule.uids == p.uids && s.rule.exclusive == p.exclusive
            && (p.meth != TmpDir ==> s.rule == p)
  {
    var m := if mode == NoUnmnt then Moved(Success, cwd, []) else Unmount(p.dir, cwd, env);
    NsSetupAsWrittenAgrees(p, ctx.user, ctx.flags, ctx.md5, env.setup);
    if m.status == Success && mode != UnmntOnly && p.meth != TmpFs {
      var n := PolyName(p.meth, ctx.user, ctx.flags, env.setup.name, ctx.md5);
      if n.Some? {
        CreateDirsRuleChange(p, p.instancePrefix + n.value, ctx.user, ctx.flags, env.setup.dirs);
      }
    }
  }

  /** When the loop succeeds, every rule that is not skipped or only unmounted has its instance mounted. */
  lemma {:induction false} ApplyRulesMountsAll(rules: seq<PolyDir>, k: nat, cwd: string, ctx: Ctx,
                                               envs: nat -> RuleEnv, i: nat)
    requires ApplyRules(rules, k, cwd, ctx, envs).status == Success
    requires i < |rules|
    requires DirUnmnt(rules[i], ctx.uid, ctx.reqUid, ctx.unmnt) in {Some(NoUnmnt), Some(UnmntRemnt)}
    ensures MountedIn(rules[i].dir, ApplyRules(rules, k, cwd, ctx, envs).actions)
    decreases |rules|
  {
    var w := ApplyRules(rules, k, cwd, ctx, envs);
    match DirUnmnt(rules[0], ctx.uid, ctx.reqUid, ctx.unmnt)
    case None =>
      ApplyRulesMountsAll(rules[1..], k + 1, cwd, ctx, envs, i - 1);
    case Some(mode) =>
      var s := SetupRule(rules[0], mode, cwd, ctx, envs(k));
      var rest := ApplyRules(rules[1..], k + 1, s.cwd, ctx, envs);
      assert w.actions == s.actions + rest.actions;
      if i == 0 {
        var p := rules[0];
        var m := if mode == NoUnmnt then Moved(Success, cwd, []) else Unmount(p.dir, cwd, envs(k));
        var r := NsSetupBy(ctx.asWritten, p, ctx.user, ctx.flags, ctx.md5, envs(k).setup);
        NsSetupAsWrittenAgrees(p, ctx.user, ctx.flags, ctx.md5, envs(k).setup);
        NsSetupMounts(p, ctx.user, ctx.flags, ctx.md5, envs(k).setup);
        assert s.actions == m.actions + r.actions;
        if MountTmpfs(p.dir) in r.actions {
          assert MountTmpfs(p.dir) in w.actions;
        } else {
          var ipath :| Bind(ipath, p.dir) in r.actions;
          assert Bind(ipath, p.dir) in w.actions;
        }
      } else {
        ApplyRulesMountsAll(rules[1..], k + 1, s.cwd, ctx, envs, i - 1);
        if MountTmpfs(rules[i].dir) in rest.actions {
          assert MountTmpfs(rules[i].dir) in w.actions;
        } else {
          var ipath :| Bind(ipath, rules[i].dir) in rest.actions;
          assert Bind(ipath, rules[i].dir) in w.actions;
        }
      }
  }

  /**
    A failed loop stopped at rule `i`, which it did not skip: the rules before it were
    walked successfully, and the whole loop ends as the loop over the rules up to `i`
    does, with the rules after `i` left as they were and no call made for them.
   */
  ghost predicate StopsAt(rules: seq<PolyDir>, k: nat, cwd: string, ctx: Ctx, envs: nat -> RuleEnv, i: nat)
    requires i < |rules|
  {
    var upto := ApplyRules(rules[..i + 1], k, cwd, ctx, envs);
    && DirUnmnt(rules[i], ctx.uid, ctx.reqUid, ctx.unmnt).Some?
    && ApplyRules(rules[..i], k, cwd, ctx, envs).status == Success
    && ApplyRules(rules, k, cwd, ctx, envs) == Walk(upto.status, upto.rules + rules[i + 1..], upto.cwd, upto.actions)
  }

  /** The loop stops at the first failure: a failed loop stops at some rule. */
  lemma {:induction false} ApplyRulesStops(rules: seq<PolyDir>, k: nat, cwd: string, ctx: Ctx,
                                           envs: nat -> RuleEnv)
    requires ApplyRules(rules, k, cwd, ctx, envs).status != Success
    ensures exists i :: 0 <= i < |rules| && StopsAt(rules, k, cwd, ctx, envs, i)
    decreases |rules|, 1
  {
    match DirUnmnt(rules[0], ctx.uid, ctx.reqUid, ctx.unmnt)
    case None =>
      StopsLater(rules, k, cwd, ctx, envs, rules[0], cwd, []);
    case Some(mode) =>
      var s := SetupRule(rules[0], mode, cwd, ctx, envs(k));
      if s.status != Success {
        StopsFirst(rules, k, cwd, ctx, envs);
      } else {
        StopsLater(rules, k, cwd, ctx, envs, s.rule, s.cwd, s.actions);
      }
  }

  /** A failure at the first rule is a stop there. */
  lemma StopsFirst(rules: seq<PolyDir>, k: nat, cwd: string, ctx: Ctx, envs: nat -> RuleEnv)
    requires rules != [] && DirUnmnt(rules[0], ctx.uid, ctx.reqUid, ctx.unmnt).Some?
    requires SetupRule(rules[0], DirUnmnt(rules[0], ctx.uid, ctx.reqUid, ctx.unmnt).value, cwd, ctx, envs(k)).status
               != Success
    ensures StopsAt(rules, k, cwd, ctx, envs, 0)
  {
    assert rules[..0] == [] && rules[..1] == [rules[0]];
  }

  /** After a successful first step, the loop stops at some later rule. */
  lemma {:induction false} StopsLater(rules: seq<PolyDir>, k: nat, cwd: string, ctx: Ctx, envs: nat -> RuleEnv,
                                      r0: PolyDir, c1: string, a0: seq<Action>)
    requires rules != []
    requires match DirUnmnt(rules[0], ctx.uid, ctx.reqUid, ctx.unmnt)
             case None => r0 == rules[0] && c1 == cwd && a0 == []
             case Some(mode) =>
               var s := SetupRule(rules[0], mode, cwd, ctx, envs(k));
               s.status == Success && r0 == s.rule && c1 == s.cwd && a0 == s.actions
    requires ApplyRules(rules[1..], k + 1, c1, ctx, envs).status != Success
    ensures exists i :: 0 <= i < |rules| && StopsAt(rules, k, cwd, ctx, envs, i)
    decreases |rules|, 0
  {
    var tail := rules[1..];
    ApplyRulesStops(tail, k + 1, c1, ctx, envs);
    var j :| 0 <= j < |tail| && StopsAt(tail, k + 1, c1, ctx, envs, j);
    FirstSteps(rules, k, cwd, ctx, envs, j, r0, c1, a0);
    StopsCons(rules, k, cwd, ctx, envs, j, r0, c1, a0);
  }

  /** The first rule's step is the same for the whole list and for its prefixes of `j + 1` and `j + 2` rules. */
  lemma FirstSteps(rules: seq<PolyDir>, k: nat, cwd: string, ctx: Ctx, envs: nat -> RuleEnv, j: nat,
                   r0: PolyDir, c1: string, a0: seq<Action>)
    requires j + 1 < |rules|
    requires match DirUnmnt(rules[0], ctx.uid, ctx.reqUid, ctx.unmnt)
             case None => r0 == rules[0] && c1 == cwd && a0 == []
             case Some(mode) =>
               var s := SetupRule(rules[0], mode, cwd, ctx, envs(k));
               s.status == Success && r0 == s.rule && c1 == s.cwd && a0 == s.actions
    ensures FirstStep(rules, k, cwd, ctx, envs, r0, c1, a0)
    ensures FirstStep(rules[..j + 1], k, cwd, ctx, envs, r0, c1, a0)
    ensures FirstStep(rules[..j + 2], k, cwd, ctx, envs, r0, c1, a0)
  {
    FirstStepOf(rules, k, cwd, ctx, envs, r0, c1, a0);
    FirstStepOf(rules[..j + 1], k, cwd, ctx, envs, r0, c1, a0);
    FirstStepOf(rules[..j + 2], k, cwd, ctx, envs, r0, c1, a0);
  }

  lemma FirstStepOf(rules: seq<PolyDir>, k: nat, cwd: string, ctx: Ctx, envs: nat -> RuleEnv,
                    r0: PolyDir, c1: string, a0: seq<Action>)
    requires rules != []
    requires match DirUnmnt(rules[0], ctx.uid, ctx.reqUid, ctx.unmnt)
             case None => r0 == rules[0] && c1 == cwd && a0 == []
             case Some(mode) =>
               var s := SetupRule(rules[0], mode, cwd, ctx, envs(k));
               s.status == Success && r0 == s.rule && c1 == s.cwd && a0 == s.actions
    ensures FirstStep(rules, k, cwd, ctx, envs, r0, c1, a0)
  {
  }

  /** The loop over `rules` is its first rule's successful step (rule `r0`, cwd `c1`, calls `a0`) followed by the rest. */
  ghost predicate FirstStep(rules: seq<PolyDir>, k: nat, cwd: string, ctx: Ctx, envs: nat -> RuleEnv,
                            r0: PolyDir, c1: string, a0: seq<Action>)
    requires rules != []
  {
    var t := ApplyRules(rules[1..], k + 1, c1, ctx, envs);
    ApplyRules(rules, k, cwd, ctx, envs) == Walk(t.status, [r0] + t.rules, t.cwd, a0 + t.actions)
  }

  /** A stop at `j` in the rest of the rules is a stop at `j + 1` after the first rule succeeded. */
  lemma StopsCons(rules: seq<PolyDir>, k: nat, cwd: string, ctx: Ctx, envs: nat -> RuleEnv, j: nat,
                  r0: PolyDir, c1: string, a0: seq<Action>)
    requires j + 1 < |rules|
    requires FirstStep(rules, k, cwd, ctx, envs, r0, c1, a0)
    requires FirstStep(rules[..j + 1], k, cwd, ctx, envs, r0, c1, a0)
    requires FirstStep(rules[..j + 2], k, cwd, ctx, envs, r0, c1, a0)
    requires StopsAt(rules[1..], k + 1, c1, ctx, envs, j)
    ensures StopsAt(rules, k, cwd, ctx, envs, j + 1)
  {
    var tail := rules[1..];
    assert rules[..j + 1][1..] == tail[..j];
    assert rules[..j + 2][1..] == tail[..j + 1];
    assert tail[j] == rules[j + 1];
    assert tail[j + 1..] == rules[j + 2..];
  }

  /** The polydirs mounted on, tmpfs or bind, in the order of the calls. */
  function MountTargets(actions: seq<Action>): seq<string> {
    if actions == [] then []
    else if actions[0].Bind? || actions[0].MountTmpfs? then [actions[0].dir] + MountTargets(actions[1..])
    else MountTargets(actions[1..])
  }

  /** The polydirs of the rules the loop sets up (not skipped and not only unmounted), in order. */
  function SetUpDirs(rules: seq<PolyDir>, ctx: Ctx): seq<string> {
    if rules == [] then []
    else if DirUnmnt(rules[0], ctx.uid, ctx.reqUid, ctx.unmnt) in {Some(NoUnmnt), Some(UnmntRemnt)} then
      [rules[0].dir] + SetUpDirs(rules[1..], ctx)
    else SetUpDirs(rules[1..], ctx)
  }

  lemma {:induction false} MountTargetsConcat(a: seq<Action>, b: seq<Action>)
    ensures MountTargets(a + b) == MountTargets(a) + MountTargets(b)
    decreases |a|
  {
    if a == [] {
      assert a + b == b;
    } else {
      assert (a + b)[1..] == a[1..] + b;
      MountTargetsConcat(a[1..], b);
    }
  }

  /** Calls that are neither bind nor tmpfs mounts mount nothing. */
  lemma {:induction false} MountsNothing(actions: seq<Action>)
    requires forall a :: a in actions ==> !a.Bind? && !a.MountTmpfs?
    ensures MountTargets(actions) == []
    decreases |actions|
  {
    if actions != [] {
      assert actions[0] in actions;
      assert forall a :: a in actions[1..] ==> a in actions;
      MountsNothing(actions[1..]);
    }
  }

  /** A successful ns_setup mounts exactly once, on the rule's polydir. */
  lemma NsSetupMountsOnce(asWritten: bool, p: PolyDir, user: string, flags: Flags, md5: string -> Digest,
                          env: SetupEnv)
    requires NsSetupBy(asWritten, p, user, flags, md5, env).status == Success
    ensures MountTargets(NsSetupBy(asWritten, p, user, flags, md5, env).actions) == [p.dir]
  {
    NsSetupAsWrittenAgrees(p, user, flags, md5, env);
    var r := NsSetup(p, user, flags, md5, env);
    if p.meth == TmpFs {
      var init := InstInit(p.dir, "tmpfs", true, user, env.dirs.init);
      InstInitFileCalls(p.dir, "tmpfs", true, user, env.dirs.init);
      MountsNothing(init.actions);
      MountTargetsConcat([MountTmpfs(p.dir)], init.actions);
    } else {
      var c := CreateDirs(p, p.instancePrefix + PolyName(p.meth, user, flags, env.name, md5).value,
                          user, flags, env.dirs);
      CreateDirsFileCalls(p, p.instancePrefix + PolyName(p.meth, user, flags, env.name, md5).value,
                          user, flags, env.dirs);
      MountsNothing(c.actions);
      MountTargetsConcat(c.actions, [Bind(c.ipath, p.dir)]);
    }
  }

  /** A successful iteration mounts the polydir once, unless it only unmounts. */
  lemma SetupRuleMountTargets(p: PolyDir, mode: Unmnt, cwd: string, ctx: Ctx, env: RuleEnv)
    requires SetupRule(p, mode, cwd, ctx, env).status == Success
    ensures MountTargets(SetupRule(p, mode, cwd, ctx, env).actions) == if mode == UnmntOnly then [] else [p.dir]
  {
    var m := if mode == NoUnmnt then Moved(Success, cwd, []) else Unmount(p.dir, cwd, env);
    MountsNothing(m.actions);
    if mode != UnmntOnly {
      NsSetupMountsOnce(ctx.asWritten, p, ctx.user, ctx.flags, ctx.md5, env.setup);
      MountTargetsConcat(m.actions, NsSetupBy(ctx.asWritten, p, ctx.user, ctx.flags, ctx.md5, env.setup).actions);
    }
  }

  /** A successful loop mounts exactly the polydirs of the rules it sets up, each once and in the order of the rules. */
  lemma {:induction false} ApplyRulesMountOrder(rules: seq<PolyDir>, k: nat, cwd: string, ctx: Ctx,
                                                envs: nat -> RuleEnv)
    requires ApplyRules(rules, k, cwd, ctx, envs).status == Success
    ensures MountTargets(ApplyRules(rules, k, cwd, ctx, envs).actions) == SetUpDirs(rules, ctx)
    decreases |rules|
  {
    if rules != [] {
      match DirUnmnt(rules[0], ctx.uid, ctx.reqUid, ctx.unmnt)
      case None =>
        ApplyRulesMountOrder(rules[1..], k + 1, cwd, ctx, envs);
      case Some(mode) =>
        var s := SetupRule(rules[0], mode, cwd, ctx, envs(k));
        ApplyRulesMountOrder(rules[1..], k + 1, s.cwd, ctx, envs);
        SetupRuleMountTargets(rules[0], mode, cwd, ctx, envs(k));
        MountTargetsConcat(s.actions, ApplyRules(rules[1..], k + 1, s.cwd, ctx, envs).actions);
    }
  }

  /** No rule is ever set up when none needs it: then the loop makes no call at all. */
  lemma {:induction false} ApplyRulesIdle(rules: seq<PolyDir>, k: nat, cwd: string, ctx: Ctx,
                                          envs: nat -> RuleEnv)
    requires !NeedsPoly(rules, ctx.uid, ctx.reqUid, ctx.unmnt)
    ensures ApplyRules(rules, k, cwd, ctx, envs) == Walk(Success, rules, cwd, [])
    decreases |rules|
  {
    if rules != [] {
      assert DirUnmnt(rules[0], ctx.uid, ctx.reqUid, ctx.unmnt).None?;
      forall i | 0 <= i < |rules| - 1
        ensures DirUnmnt(rules[1..][i], ctx.uid, ctx.reqUid, ctx.unmnt).None?
      {
        assert rules[1..][i] == rules[i + 1];
      }
      ApplyRulesIdle(rules[1..], k + 1, cwd, ctx, envs);
      assert [rules[0]] + rules[1..] == rules;
    }
  }

  // ---------------------------------------------------------------------
  // cleanup_tmpdirs

  /** Only existing instances of tmpdir rules are ever removed. */
  lemma {:induction false} CleanupRemovesOnlyTmpdirs(rules: seq<PolyDir>, env: CleanupEnv, x: string)
    requires RmTmp(x) in CleanupTmpdirs(rules, env).actions
    ensures exists i :: 0 <= i < |rules| && rules[i].meth == TmpDir && rules[i].instancePrefix == x
    ensures x in env.present
    decreases |rules|
  {
    if env.signalOk {
      var p := rules[0];
      if p.meth == TmpDir && p.instancePrefix in env.present && p.instancePrefix == x {
        assert rules[0].meth == TmpDir;
      } else {
        assert RmTmp(x) in CleanupFrom(rules[1..], env).actions;
        CleanupRemovesOnlyTmpdirs(rules[1..], env, x);
        var i :| 0 <= i < |rules[1..]| && rules[1..][i].meth == TmpDir && rules[1..][i].instancePrefix == x;
        assert rules[i + 1] == rules[1..][i];
      }
    }
  }

  /** Unless a fork or wait fails, every existing tmpdir instance is removed and the cleanup succeeds. */
  lemma {:induction false} CleanupRemovesAll(rules: seq<PolyDir>, env: CleanupEnv, i: nat)
    requires env.signalOk
    requires forall x :: x in env.present ==> !env.rm(x).ForkFails? && !env.rm(x).WaitFails?
    requires i < |rules| && rules[i].meth == TmpDir && rules[i].instancePrefix in env.present
    ensures CleanupTmpdirs(rules, env).status == Success
    ensures RmTmp(rules[i].instancePrefix) in CleanupTmpdirs(rules, env).actions
    decreases |rules|
  {
    if i > 0 {
      CleanupRemovesAll(rules[1..], env, i - 1);
    } else {
      CleanupSucceeds(rules[1..], env);
    }
  }

  /** Without fork or wait failures the cleanup succeeds. */
  lemma {:induction false} CleanupSucceeds(rules: seq<PolyDir>, env: CleanupEnv)
    requires env.signalOk
    requires forall x :: x in env.present ==> !env.rm(x).ForkFails? && !env.rm(x).WaitFails?
    ensures CleanupTmpdirs(rules, env).status == Success
    decreases |rules|
  {
    if rules != [] {
      CleanupSucceeds(rules[1..], env);
    }
  }

  // ---------------------------------------------------------------------
  // setup_namespace

  /** Without any rule to apply, the list is freed and nothing else happens. */
  lemma SetupNamespaceIdle(rules: seq<PolyDir>, cwd: string, ctx: Ctx, storeOk: bool, unshareOk: bool,
                           envs: nat -> RuleEnv, cl: CleanupEnv)
    requires !NeedsPoly(rules, ctx.uid, ctx.reqUid, ctx.unmnt)
    ensures SetupNamespace(rules, cwd, ctx, storeOk, unshareOk, envs, cl)
              == SetupResult(Success, [], false, cwd, [FreeRules])
  {
  }

  /** Every mount happens after the process has left the parent's mount namespace. */
  lemma SetupNamespaceUnsharesFirst(rules: seq<PolyDir>, cwd: string, ctx: Ctx, storeOk: bool,
                                    unshareOk: bool, envs: nat -> RuleEnv, cl: CleanupEnv, j: nat)
    requires var r := SetupNamespace(rules, cwd, ctx, storeOk, unshareOk, envs, cl);
             j < |r.actions| && (r.actions[j].Bind? || r.actions[j].MountTmpfs? || r.actions[j].Umount?)
    ensures unshareOk && storeOk
    ensures var r := SetupNamespace(rules, cwd, ctx, storeOk, unshareOk, envs, cl);
            r.actions[..2] == [SaveRules, Unshare] && j >= 2
  {
  }

  /** The outcome of setup_namespace: success needs every applicable rule mounted; failure leads to the tmpdir cleanup. */
  lemma SetupNamespaceOutcome(rules: seq<PolyDir>, cwd: string, ctx: Ctx, storeOk: bool,
                              unshareOk: bool, envs: nat -> RuleEnv, cl: CleanupEnv)
    requires NeedsPoly(rules, ctx.uid, ctx.reqUid, ctx.unmnt) && storeOk && unshareOk
    ensures var r := SetupNamespace(rules, cwd, ctx, storeOk, unshareOk, envs, cl);
            var w := ApplyRules(rules, 0, cwd, ctx, envs);
            && r.held
            && (r.status == Success ==>
                  forall i :: 0 <= i < |rules| &&
                    DirUnmnt(rules[i], ctx.uid, ctx.reqUid, ctx.unmnt) in {Some(NoUnmnt), Some(UnmntRemnt)}
                    ==> MountedIn(rules[i].dir, r.actions))
            && (r.status != Success ==>
                  r.actions == [SaveRules, Unshare] + w.actions + CleanupTmpdirs(w.rules, cl).actions)
  {
    var r := SetupNamespace(rules, cwd, ctx, storeOk, unshareOk, envs, cl);
    var w := ApplyRules(rules, 0, cwd, ctx, envs);
    if r.status == Success {
      forall i | 0 <= i < |rules| &&
          DirUnmnt(rules[i], ctx.uid, ctx.reqUid, ctx.unmnt) in {Some(NoUnmnt), Some(UnmntRemnt)}
        ensures MountedIn(rules[i].dir, r.actions)
      {
        ApplyRulesMountsAll(rules, 0, cwd, ctx, envs, i);
        if MountTmpfs(rules[i].dir) in w.actions {
          assert MountTmpfs(rules[i].dir) in r.actions;
        } else {
          var ipath :| Bind(ipath, rules[i].dir) in w.actions;
          assert Bind(ipath, rules[i].dir) in r.actions;
        }
      }
    }
  }

  // ---------------------------------------------------------------------
  // ns_setup as written

  /** An iteration with ns_setup as written ends like the corrected one: same status, rule and working directory. */
  lemma SetupRuleAsWrittenAgrees(p: PolyDir, mode: Unmnt, cwd: string, ctx: Ctx, env: RuleEnv)
    ensures var a := SetupRule(p, mode, cwd, ctx.(asWritten := true), env);
            var r := SetupRule(p, mode, cwd, ctx.(asWritten := false), env);
            a.status == r.status && a.rule == r.rule && a.cwd == r.cwd
  {
    NsSetupAsWrittenAgrees(p, ctx.user, ctx.flags, ctx.md5, env.setup);
  }

  /** So does the whole loop; only the calls made after a failed create_dirs differ. */
  lemma {:induction false} ApplyRulesAsWrittenAgrees(rules: seq<PolyDir>, k: nat, cwd: string, ctx: Ctx,
                                                     envs: nat -> RuleEnv)
    ensures var a := ApplyRules(rules, k, cwd, ctx.(asWritten := true), envs);
            var r := ApplyRules(rules, k, cwd, ctx.(asWritten := false), envs);
            a.status == r.status && a.rules == r.rules && a.cwd == r.cwd
    decreases |rules|
  {
    if rules != [] {
      var aw, co := ctx.(asWritten := true), ctx.(asWritten := false);
      match DirUnmnt(rules[0], ctx.uid, ctx.reqUid, ctx.unmnt)
      case None =>
        ApplyRulesAsWrittenAgrees(rules[1..], k + 1, cwd, ctx, envs);
      case Some(mode) =>
        SetupRuleAsWrittenAgrees(rules[0], mode, cwd, ctx, envs(k));
        var s := SetupRule(rules[0], mode, cwd, co, envs(k));
        ApplyRulesAsWrittenAgrees(rules[1..], k + 1, s.cwd, ctx, envs);
    }
  }

  /** setup_namespace with ns_setup as written ends with the same status, rules, working directory and holder of the list. */
  lemma SetupNamespaceAsWrittenAgrees(rules: seq<PolyDir>, cwd: string, ctx: Ctx, storeOk: bool, unshareOk: bool,
                                      envs: nat -> RuleEnv, cl: CleanupEnv)
    ensures var a := SetupNamespace(rules, cwd, ctx.(asWritten := true), storeOk, unshareOk, envs, cl);
            var r := SetupNamespace(rules, cwd, ctx.(asWritten := false), storeOk, unshareOk, envs, cl);
            a.status == r.status && a.rules == r.rules && a.held == r.held && a.cwd == r.cwd
  {
    ApplyRulesAsWrittenAgrees(rules, 0, cwd, ctx, envs);
  }

  // ---------------------------------------------------------------------
  // orig_namespace

  /** The dirs of the rules that apply to `uid`, in order. */
  function AppliedDirs(rules: seq<PolyDir>, uid: Uid): seq<string> {
    if rules == [] then []
    else if IsOverride(rules[0], uid) then AppliedDirs(rules[1..], uid)
    else [rules[0].dir] + AppliedDirs(rules[1..], uid)
  }

  /** The unmounts, one per call. */
  function Umounts(dirs: seq<string>): seq<Action> {
    if dirs == [] then [] else [Umount(dirs[0])] + Umounts(dirs[1..])
  }

  /** When every unmount succeeds, exactly the rules that apply to the user are unmounted, in order. */
  lemma {:induction false} OrigFromUnmountsApplied(rules: seq<PolyDir>, k: nat, uid: Uid,
                                                   umountOk: nat -> bool)
    requires forall j :: k <= j < k + |rules| ==> umountOk(j)
    ensures OrigFrom(rules, k, uid, umountOk) == Run(Success, Umounts(AppliedDirs(rules, uid)))
    decreases |rules|
  {
    if rules != [] {
      OrigFromUnmountsApplied(rules[1..], k + 1, uid, umountOk);
    }
  }

  /** A failed unmount ends orig_namespace with PAM_SESSION_ERR: the rules after it and the tmpdir cleanup are skipped. */
  lemma {:induction false} OrigFromFailure(rules: seq<PolyDir>, k: nat, uid: Uid, umountOk: nat -> bool)
    requires OrigFrom(rules, k, uid, umountOk).status != Success
    ensures OrigFrom(rules, k, uid, umountOk).status == SessionErr
    ensures exists j :: 0 <= j < |rules| && !IsOverride(rules[j], uid) && !umountOk(k + j)
    ensures forall a :: a in OrigFrom(rules, k, uid, umountOk).actions ==> a.Umount?
    decreases |rules|
  {
    if IsOverride(rules[0], uid) {
      OrigFromFailure(rules[1..], k + 1, uid, umountOk);
      var j :| 0 <= j < |rules[1..]| && !IsOverride(rules[1..][j], uid) && !umountOk(k + 1 + j);
      assert rules[j + 1] == rules[1..][j];
    } else if umountOk(k) {
      OrigFromFailure(rules[1..], k + 1, uid, umountOk);
      var j :| 0 <= j < |rules[1..]| && !IsOverride(rules[1..][j], uid) && !umountOk(k + 1 + j);
      assert rules[j + 1] == rules[1..][j];
    } else {
      assert !IsOverride(rules[0], uid) && !umountOk(k + 0);
    }
  }

  /** orig_namespace reports only success or PAM_SESSION_ERR, and runs the cleanup exactly when all unmounts succeeded. */
  lemma OrigNamespaceOutcome(rules: seq<PolyDir>, uid: Uid, umountOk: nat -> bool, cl: CleanupEnv)
    ensures var r := OrigNamespace(rules, uid, umountOk, cl);
            && r.status in {Success, SessionErr}
            && (r.status == SessionErr ==> forall a :: a in r.actions ==> a.Umount?)
            && ((forall j :: 0 <= j < |rules| ==> umountOk(j)) ==>
                  r == Run(Success, Umounts(AppliedDirs(rules, uid)) + CleanupTmpdirs(rules, cl).actions))
  {
    if OrigFrom(rules, 0, uid, umountOk).status != Success {
      OrigFromFailure(rules, 0, uid, umountOk);
    }
    if forall j :: 0 <= j < |rules| ==> umountOk(j) {
      OrigFromUnmountsApplied(rules, 0, uid, umountOk);
    }
  }
}
