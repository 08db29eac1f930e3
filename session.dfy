/**
  The session-time operations of pam_namespace on the instance data:
  creating an instance (create_dirs), setting up one polydir (ns_setup),
  setting up the namespace (setup_namespace), removing tmpdir instances
  (cleanup_tmpdirs) and restoring the original namespace (orig_namespace).
  Each method walks the rule list as pam_namespace.c does and is proved equal
  to the specification of the same name in Provision or Setup.
 */
module Session {
  import opened Types
  import opened Paths
  import opened InstanceName
  import opened Override
  import opened Namespace
  import Provision
  import Setup

  /**
    create_dirs on the rule at position `i`: returns the status, the instance path (which
    mkdtemp replaces for a tmpdir rule) and the calls made; the rule is updated in place.
   */
  method CreateDirs(idata: InstanceData, i: nat, ipath: string, env: Provision.DirEnv)
    returns (rc: Status, newIpath: string, acts: seq<Action>)
    requires i < |idata.polydirs|
    modifies idata
    ensures var c := Provision.CreateDirs(old(idata.polydirs[i]), ipath, idata.user, idata.flags, env);
            && rc == c.status && newIpath == c.ipath && acts == c.actions
            && idata.polydirs == old(idata.polydirs)[i := c.rule]
  {
    var p := idata.polydirs[i];
    newIpath := ipath;
    acts := [];
    if p.dir !in env.fs || !env.fs[p.dir].isDir {
      return SessionErr, newIpath, acts;
    }
    if CheckInstParent(ipath, env.fs, idata.flags) != Success {
      return SessionErr, newIpath, acts;
    }
    var st := env.fs[p.dir];
    if p.meth == TmpDir {
      acts := [MakeTemp(p.instancePrefix)];
      if env.tempDir.None? {
        idata.polydirs := idata.polydirs[i := p.(meth := NoMethod)];
        return SessionErr, newIpath, acts;
      }
      idata.polydirs := idata.polydirs[i := p.(instancePrefix := env.tempDir.value)];
      newIpath := env.tempDir.value;
    } else {
      acts := [MakeDir(ipath)];
      if ipath in env.fs {
        var init := Provision.InstInit(p.dir, ipath, false, idata.user, env.init);
        return init.status, newIpath, acts + init.actions;
      }
      if !env.mkdirOk {
        return SessionErr, newIpath, acts;
      }
    }
    var more := SetAttributes(p.dir, newIpath, st, idata.user, idata.flags, env);
    rc, acts := more.status, acts + more.actions;
  }

  /**
    The part of create_dirs after the instance directory was made: label it, copy the
    polydir's owner, group and mode bits to it (removing it on any failure), then run
    the init script with newdir 1.
   */
  method SetAttributes(dir: string, ipath: string, st: Stat, user: string, flags: Flags,
                       env: Provision.DirEnv)
    returns (r: Provision.Run)
    ensures r == Provision.Provisioned(dir, ipath, st, user, flags, env)
  {
    var acts := [];
    if !env.openOk {
      return Provision.Run(SessionErr, [Rmdir(ipath)]);
    }
    if flags.withSelinux && flags.selinuxEnabled {
      acts := [Label(ipath)];
      if !env.labelOk {
        return Provision.Run(SessionErr, acts + [Rmdir(ipath)]);
      }
    }
    if env.newStat.None? {
      return Provision.Run(SessionErr, acts + [Rmdir(ipath)]);
    }
    var ns := env.newStat.value;
    if ns.uid != st.uid || ns.gid != st.gid {
      acts := acts + [Chown(ipath, st.uid, st.gid)];
      if !env.chownOk {
        return Provision.Run(SessionErr, acts + [Rmdir(ipath)]);
      }
    }
    acts := acts + [Chmod(ipath, st.mode % 0x1000)];
    if !env.chmodOk {
      return Provision.Run(SessionErr, acts + [Rmdir(ipath)]);
    }
    var init := Provision.InstInit(dir, ipath, true, user, env.init);
    return Provision.Run(init.status, acts + init.actions);
  }

  /**
    ns_setup on the rule at position `i`: with `asWritten` it goes on to the bind mount after
    create_dirs fails, as pam_namespace.c does; otherwise it stops there, as intended.
   */
  method NsSetup(idata: InstanceData, i: nat, md5: string -> Digest, env: Provision.SetupEnv, asWritten: bool)
    returns (rc: Status, acts: seq<Action>)
    requires i < |idata.polydirs|
    modifies idata
    ensures var r := Provision.NsSetupBy(asWritten, old(idata.polydirs[i]), idata.user, idata.flags, md5, env);
            && rc == r.status && acts == r.actions
            && idata.polydirs == old(idata.polydirs)[i := r.rule]
  {
    var p := idata.polydirs[i];
    if p.meth == TmpFs {
      if !env.tmpfsOk {
        return SessionErr, [MountTmpfs(p.dir)];
      }
      var init := Provision.InstInit(p.dir, "tmpfs", true, idata.user, env.dirs.init);
      return init.status, [MountTmpfs(p.dir)] + init.actions;
    }
    var name := PolyName(p.meth, idata.user, idata.flags, env.name, md5);
    if name.None? {
      return SessionErr, [];
    }
    var instDir := p.instancePrefix + name.value;
    var ipath;
    rc, ipath, acts := CreateDirs(idata, i, instDir, env.dirs);
    if rc != Success && !asWritten {
      return SessionErr, acts;
    }
    acts := acts + [Bind(ipath, p.dir)];
    if !env.bindOk {
      rc := SessionErr;
    }
  }

  /** One iteration of the setup loop for the rule at position `i`, in unmount mode `mode`. */
  method SetupRule(idata: InstanceData, i: nat, mode: Unmnt, cwd: string, md5: string -> Digest,
                   env: Setup.RuleEnv, asWritten: bool, ghost ctx: Setup.Ctx)
    returns (rc: Status, newCwd: string, acts: seq<Action>)
    requires i < |idata.polydirs|
    requires ctx.user == idata.user && ctx.flags == idata.flags && ctx.md5 == md5 && ctx.asWritten == asWritten
    modifies idata
    ensures var s := Setup.SetupRule(old(idata.polydirs[i]), mode, cwd, ctx, env);
            && rc == s.status && newCwd == s.cwd && acts == s.actions
            && idata.polydirs == old(idata.polydirs)[i := s.rule]
  {
    var p := idata.polydirs[i];
    rc, newCwd, acts := Success, cwd, [];
    if mode == UnmntRemnt || mode == UnmntOnly {
      var m := Setup.Unmount(p.dir, cwd, env);
      if m.status != Success {
        return m.status, m.cwd, m.actions;
      }
      newCwd, acts := m.cwd, m.actions;
    }
    if mode != UnmntOnly {
      var more;
      rc, more := NsSetup(idata, i, md5, env.setup, asWritten);
      acts := acts + more;
    }
  }

  /** The walk of the setup loop put after rules already done and calls already made. */
  function Glue(done: seq<PolyDir>, acts: seq<Action>, w: Setup.Walk): Setup.Walk {
    Setup.Walk(w.status, done + w.rules, w.cwd, acts + w.actions)
  }

  /** The second loop of setup_namespace: skip, unmount or set up each rule; stop at the first failure. */
  method ApplyRules(idata: InstanceData, cwd0: string, md5: string -> Digest, envs: nat -> Setup.RuleEnv,
                    reqUid: Uid, unmnt: Unmnt, asWritten: bool)
    returns (rc: Status, cwd: string, acts: seq<Action>)
    modifies idata
    ensures var w := Setup.ApplyRules(old(idata.polydirs), 0, cwd0,
                                      Setup.Ctx(idata.user, idata.uid, reqUid, idata.flags, unmnt, md5, asWritten), envs);
            && rc == w.status && cwd == w.cwd && acts == w.actions && idata.polydirs == w.rules
  {
    ghost var ctx := Setup.Ctx(idata.user, idata.uid, reqUid, idata.flags, unmnt, md5, asWritten);
    ghost var rules0 := idata.polydirs;
    rc, cwd, acts := Success, cwd0, [];
    var i := 0;
    assert rules0[0..] == rules0;
    while i < |idata.polydirs|
      invariant 0 <= i <= |rules0| == |idata.polydirs|
      invariant idata.polydirs[i..] == rules0[i..]
      invariant rc == Success
      invariant Setup.ApplyRules(rules0, 0, cwd0, ctx, envs)
                  == Glue(idata.polydirs[..i], acts, Setup.ApplyRules(rules0[i..], i, cwd, ctx, envs))
    {
      ghost var done := idata.polydirs[..i];
      ghost var before := idata.polydirs;
      assert before[i + 1..] == rules0[i + 1..] by {
        assert before[i + 1..] == before[i..][1..];
      }
      var next, step;
      rc, next, step := ApplyStep(idata, i, cwd, md5, envs, reqUid, unmnt, asWritten, ctx);
      ghost var r := idata.polydirs[i];
      if rc != Success {
        SplitAt(idata.polydirs, i);
        cwd, acts := next, acts + step;
        return;
      }
      GlueAfter(done, acts, [r], step, Setup.ApplyRules(rules0[i + 1..], i + 1, next, ctx, envs));
      assert idata.polydirs[..i + 1] == done + [r];
      cwd, acts := next, acts + step;
      i := i + 1;
    }
    assert idata.polydirs[..i] == idata.polydirs;
  }

  /** One pass of the setup loop at position `i`: skip the rule, or unmount it and set it up. */
  method ApplyStep(idata: InstanceData, i: nat, cwd: string, md5: string -> Digest, envs: nat -> Setup.RuleEnv,
                   reqUid: Uid, unmnt: Unmnt, asWritten: bool, ghost ctx: Setup.Ctx)
    returns (rc: Status, next: string, step: seq<Action>)
    requires i < |idata.polydirs|
    requires ctx == Setup.Ctx(idata.user, idata.uid, reqUid, idata.flags, unmnt, md5, asWritten)
    modifies idata
    ensures |idata.polydirs| == |old(idata.polydirs)|
    ensures idata.polydirs[..i] == old(idata.polydirs)[..i]
    ensures idata.polydirs[i + 1..] == old(idata.polydirs)[i + 1..]
    ensures var rest := old(idata.polydirs)[i + 1..];
            var w := Setup.ApplyRules(old(idata.polydirs)[i..], i, cwd, ctx, envs);
            if rc != Success then w == Setup.Walk(rc, [idata.polydirs[i]] + rest, next, step)
            else w == Glue([idata.polydirs[i]], step, Setup.ApplyRules(rest, i + 1, next, ctx, envs))
  {
    var p := idata.polydirs[i];
    ApplyRulesNext(idata.polydirs, i, cwd, ctx, envs);
    var skip, mode := false, unmnt;
    var mine := NsOverride(p, idata.uid);
    if mine {
      if unmnt == NoUnmnt {
        skip := true;
      } else {
        var theirs := NsOverride(p, reqUid);
        if theirs {
          skip := true;
        } else {
          mode := UnmntOnly;
        }
      }
    }
    if skip {
      assert Setup.DirUnmnt(p, ctx.uid, ctx.reqUid, ctx.unmnt).None?;
      return Success, cwd, [];
    }
    assert Setup.DirUnmnt(p, ctx.uid, ctx.reqUid, ctx.unmnt) == Some(mode);
    rc, next, step := SetupRule(idata, i, mode, cwd, md5, envs(i), asWritten, ctx);
  }

  /** One more step of the setup loop's specification, taken at position `i`. */
  lemma ApplyRulesNext(rules: seq<PolyDir>, i: nat, cwd: string, ctx: Setup.Ctx, envs: nat -> Setup.RuleEnv)
    requires i < |rules|
    ensures var w := Setup.ApplyRules(rules[i..], i, cwd, ctx, envs);
            var rest := rules[i + 1..];
            match Setup.DirUnmnt(rules[i], ctx.uid, ctx.reqUid, ctx.unmnt)
            case None => w == Glue([rules[i]], [], Setup.ApplyRules(rest, i + 1, cwd, ctx, envs))
            case Some(mode) =>
              var s := Setup.SetupRule(rules[i], mode, cwd, ctx, envs(i));
              if s.status != Success then w == Setup.Walk(s.status, [s.rule] + rest, s.cwd, s.actions)
              else w == Glue([s.rule], s.actions, Setup.ApplyRules(rest, i + 1, s.cwd, ctx, envs))
  {
    assert rules[i..][1..] == rules[i + 1..];
    assert rules[i..][0] == rules[i];
    var w := Setup.ApplyRules(rules[i..], i, cwd, ctx, envs);
    match Setup.DirUnmnt(rules[i], ctx.uid, ctx.reqUid, ctx.unmnt)
    case None =>
      var w' := Setup.ApplyRules(rules[i + 1..], i + 1, cwd, ctx, envs);
      assert w.actions == [] + w'.actions;
    case Some(mode) =>
  }

  /** A sequence is its part before `i`, its element at `i` and its part after `i`. */
  lemma SplitAt<T>(xs: seq<T>, i: nat)
    requires i < |xs|
    ensures xs == xs[..i] + ([xs[i]] + xs[i + 1..])
  {
  }

  /** Gluing twice is gluing the concatenations. */
  lemma GlueAfter(done: seq<PolyDir>, acts: seq<Action>, more: seq<PolyDir>, step: seq<Action>, w: Setup.Walk)
    ensures Glue(done, acts, Glue(more, step, w)) == Glue(done + more, acts + step, w)
  {
    assert done + (more + w.rules) == (done + more) + w.rules;
    assert acts + (step + w.actions) == (acts + step) + w.actions;
  }

  /** The loop of cleanup_tmpdirs over the rule list. */
  method CleanupTmpdirs(idata: InstanceData, env: Setup.CleanupEnv) returns (rc: Status, acts: seq<Action>)
    ensures Provision.Run(rc, acts) == Setup.CleanupTmpdirs(idata.polydirs, env)
  {
    if !env.signalOk {
      return SessionErr, [];
    }
    acts := [];
    var i := 0;
    assert idata.polydirs[0..] == idata.polydirs;
    while i < |idata.polydirs|
      invariant 0 <= i <= |idata.polydirs|
      invariant var r := Setup.CleanupFrom(idata.polydirs[i..], env);
                Setup.CleanupFrom(idata.polydirs, env) == Provision.Run(r.status, acts + r.actions)
    {
      var p := idata.polydirs[i];
      assert idata.polydirs[i..][1..] == idata.polydirs[i + 1..];
      if p.meth == TmpDir && p.instancePrefix in env.present {
        var end := env.rm(p.instancePrefix);
        if end.ForkFails? {
          return SessionErr, acts;
        }
        acts := acts + [RmTmp(p.instancePrefix)];
        if end.WaitFails? {
          return SessionErr, acts;
        }
      }
      i := i + 1;
    }
    rc := Success;
  }

  /** orig_namespace: unmount every rule that applies to the user, then remove the tmpdir instances. */
  method OrigNamespace(idata: InstanceData, umountOk: nat -> bool, cl: Setup.CleanupEnv)
    returns (rc: Status, acts: seq<Action>)
    ensures Provision.Run(rc, acts) == Setup.OrigNamespace(idata.polydirs, idata.uid, umountOk, cl)
  {
    acts := [];
    var i := 0;
    assert idata.polydirs[0..] == idata.polydirs;
    while i < |idata.polydirs|
      invariant 0 <= i <= |idata.polydirs|
      invariant var r := Setup.OrigFrom(idata.polydirs[i..], i, idata.uid, umountOk);
                Setup.OrigFrom(idata.polydirs, 0, idata.uid, umountOk) == Provision.Run(r.status, acts + r.actions)
    {
      var p := idata.polydirs[i];
      assert idata.polydirs[i..][1..] == idata.polydirs[i + 1..];
      var skip := NsOverride(p, idata.uid);
      if !skip {
        acts := acts + [Umount(p.dir)];
        if !umountOk(i) {
          return SessionErr, acts;
        }
      }
      i := i + 1;
    }
    var crc, cacts := CleanupTmpdirs(idata, cl);
    rc, acts := Success, acts + cacts;
  }

  /**
    setup_namespace: find out whether any rule applies, store the list in the PAM handle,
    leave the parent's mount namespace, apply the rules and clean up after a failure.
   */
  method SetupNamespace(idata: InstanceData, unmnt: Unmnt, ruser: Option<string>,
                        users: map<string, Passwd>, realUid: Uid, cwd0: string, md5: string -> Digest,
                        storeOk: bool, unshareOk: bool, envs: nat -> Setup.RuleEnv, cl: Setup.CleanupEnv,
                        asWritten: bool)
    returns (rc: Status, held: bool, cwd: string, acts: seq<Action>)
    modifies idata
    ensures var ctx := Setup.Ctx(idata.user, idata.uid, Setup.ReqUid(ruser, users, realUid), idata.flags, unmnt, md5,
                                 asWritten);
            var r := Setup.SetupNamespace(old(idata.polydirs), cwd0, ctx, storeOk, unshareOk, envs, cl);
            && rc == r.status && held == r.held && cwd == r.cwd && acts == r.actions
            && idata.polydirs == r.rules
  {
    var reqUid := realUid;
    if ruser.Some? && ruser.value in users {
      reqUid := users[ruser.value].uid;
    }
    ghost var ctx := Setup.Ctx(idata.user, idata.uid, reqUid, idata.flags, unmnt, md5, asWritten);
    var need := false;
    var i := 0;
    while i < |idata.polydirs| && !need
      invariant 0 <= i <= |idata.polydirs|
      invariant idata.polydirs == old(idata.polydirs)
      invariant !need ==> forall j :: 0 <= j < i ==>
                  Setup.DirUnmnt(idata.polydirs[j], idata.uid, reqUid, unmnt).None?
      invariant need ==> Setup.NeedsPoly(idata.polydirs, idata.uid, reqUid, unmnt)
    {
      var p := idata.polydirs[i];
      var mine := NsOverride(p, idata.uid);
      if mine {
        if unmnt != NoUnmnt {
          var theirs := NsOverride(p, reqUid);
          if !theirs {
            assert Setup.DirUnmnt(p, idata.uid, reqUid, unmnt).Some?;
            need := true;
          }
        }
      } else {
        assert Setup.DirUnmnt(p, idata.uid, reqUid, unmnt).Some?;
        need := true;
      }
      i := i + 1;
    }
    cwd := cwd0;
    assert reqUid == Setup.ReqUid(ruser, users, realUid);
    if !need {
      assert !Setup.NeedsPoly(idata.polydirs, idata.uid, reqUid, unmnt);
      idata.DelPolydirList();
      return Success, false, cwd, [FreeRules];
    }
    if !storeOk {
      return SystemErr, false, cwd, [SaveRules];
    }
    if !unshareOk {
      return SessionErr, false, cwd, [SaveRules, Unshare, ClearRules];
    }
    var walked;
    rc, cwd, walked := ApplyRules(idata, cwd0, md5, envs, reqUid, unmnt, asWritten);
    acts := [SaveRules, Unshare] + walked;
    held := true;
    if rc != Success {
      var crc, cacts := CleanupTmpdirs(idata, cl);
      acts := acts + cacts;
    }
  }
}
