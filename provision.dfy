/**
  Provisioning of one polyinstantiated directory: running the namespace
  init script (inst_init), creating the instance directory with the
  owner, group and mode of the polydir (create_dirs), and mounting the
  instance over the polydir (ns_setup).

  The kernel is an environment: `fs` is what stat() finds, and every other
  call's success is an input.  Results list the calls made, in order.
 */
module Provision {
  import opened Types
  import opened CStrings
  import opened Paths
  import opened InstanceName

  /** Whether NAMESPACE_INIT_SCRIPT exists and whether it is executable. */
  datatype Script = NoScript | NotExecutable | Executable

  /** How a forked helper (the init script, /bin/rm) ends. */
  datatype RunEnd = ForkFails | WaitFails | Exited(code: int) | Killed

  /** What inst_init meets: signal(SIGCHLD) succeeding, the script, and how running it ends. */
  datatype InitEnv = InitEnv(signalOk: bool, script: Script, run: RunEnd)

  /** A status with the calls that led to it. */
  datatype Run = Run(status: Status, actions: seq<Action>)

  /**
    inst_init: run the init script with the polydir, the instance path, whether the
    instance is new, and the user.  Only abnormal termination of the script is an
    error; its exit code is not looked at.
   */
  function InstInit(dir: string, ipath: string, newDir: bool, user: string, env: InitEnv): Run {
    if !env.signalOk then Run(SessionErr, [])
    else match env.script
      case NoScript => Run(Success, [])
      case NotExecutable => Run(SessionErr, [])
      case Executable =>
        match env.run
        case ForkFails => Run(SessionErr, [])
        case WaitFails => Run(SessionErr, [RunInit(dir, ipath, newDir, user)])
        case Exited(_) => Run(Success, [RunInit(dir, ipath, newDir, user)])
        case Killed => Run(SessionErr, [RunInit(dir, ipath, newDir, user)])
  }

  /** What create_dirs meets besides the init script. */
  datatype DirEnv = DirEnv(
    fs: map<string, Stat>,    // what stat() finds before the call
    tempDir: Option<string>,  // the directory mkdtemp creates, or its failure
    mkdirOk: bool,            // mkdir of an instance path that does not exist yet
    openOk: bool,
    labelOk: bool,            // fsetfilecon of the new directory
    newStat: Option<Stat>,    // fstat of the new directory
    chownOk: bool,
    chmodOk: bool,
    init: InitEnv)

  /** The result of create_dirs: its status, the rule and instance path as it leaves them, and its calls. */
  datatype Created = Created(status: Status, rule: PolyDir, ipath: string, actions: seq<Action>)

  /**
    The part of create_dirs after a new directory `ipath` was made: label it (SELinux),
    give it the owner and group of the polydir when they differ, then its mode bits,
    removing it again on any failure, and finally run the init script for a new instance.
   */
  function Provisioned(dir: string, ipath: string, st: Stat, user: string, flags: Flags,
                       env: DirEnv): Run
  {
    var labels := if flags.withSelinux && flags.selinuxEnabled then [Label(ipath)] else [];
    if !env.openOk then Run(SessionErr, [Rmdir(ipath)])
    else if labels != [] && !env.labelOk then Run(SessionErr, labels + [Rmdir(ipath)])
    else if env.newStat.None? then Run(SessionErr, labels + [Rmdir(ipath)])
    else
      var ns := env.newStat.value;
      var chown := if ns.uid != st.uid || ns.gid != st.gid then [Chown(ipath, st.uid, st.gid)] else [];
      if chown != [] && !env.chownOk then Run(SessionErr, labels + chown + [Rmdir(ipath)])
      else
        var attrs := labels + chown + [Chmod(ipath, st.mode % 0x1000)];
        if !env.chmodOk then Run(SessionErr, attrs + [Rmdir(ipath)])
        else
          var init := InstInit(dir, ipath, true, user, env.init);
          Run(init.status, attrs + init.actions)
  }

  /**
    create_dirs: the polydir must be a directory and the instance parent must pass
    check_inst_parent.  A tmpdir rule gets a fresh directory from mkdtemp, which
    replaces the rule's instance prefix and becomes the instance path; if mkdtemp
    fails the rule's method becomes NONE so that it is never cleaned up.  Any
    other rule makes `ipath`; an existing instance goes straight to the init script.
   */
  function CreateDirs(p: PolyDir, ipath: string, user: string, flags: Flags, env: DirEnv): Created {
    if p.dir !in env.fs || !env.fs[p.dir].isDir then Created(SessionErr, p, ipath, [])
    else if CheckInstParent(ipath, env.fs, flags) != Success then Created(SessionErr, p, ipath, [])
    else
      var st := env.fs[p.dir];
      if p.meth == TmpDir then
        match env.tempDir
        case None => Created(SessionErr, p.(meth := NoMethod), ipath, [MakeTemp(p.instancePrefix)])
        case Some(t) =>
          var r := Provisioned(p.dir, t, st, user, flags, env);
          Created(r.status, p.(instancePrefix := t), t, [MakeTemp(p.instancePrefix)] + r.actions)
      else if ipath in env.fs then
        var r := InstInit(p.dir, ipath, false, user, env.init);
        Created(r.status, p, ipath, [MakeDir(ipath)] + r.actions)
      else if !env.mkdirOk then Created(SessionErr, p, ipath, [MakeDir(ipath)])
      else
        var r := Provisioned(p.dir, ipath, st, user, flags, env);
        Created(r.status, p, ipath, [MakeDir(ipath)] + r.actions)
  }

  /** What ns_setup meets for one rule. */
  datatype SetupEnv = SetupEnv(tmpfsOk: bool, name: NameEnv, dirs: DirEnv, bindOk: bool)

  /** The result of ns_setup: its status, the rule as create_dirs leaves it, and its calls. */
  datatype RuleResult = RuleResult(status: Status, rule: PolyDir, actions: seq<Action>)

  /**
    ns_setup, with the check of create_dirs' result that pam_namespace.c evidently intends: a
    tmpfs rule mounts a tmpfs on the polydir and runs the init script; any other rule
    names its instance, creates it under the instance prefix and, only once that
    succeeded, bind-mounts it on the polydir.
   */
  function NsSetup(p: PolyDir, user: string, flags: Flags, md5: string -> Digest,
                   env: SetupEnv): RuleResult
  {
    if p.meth == TmpFs then
      if !env.tmpfsOk then RuleResult(SessionErr, p, [MountTmpfs(p.dir)])
      else
        var init := InstInit(p.dir, "tmpfs", true, user, env.dirs.init);
        RuleResult(init.status, p, [MountTmpfs(p.dir)] + init.actions)
    else match PolyName(p.meth, user, flags, env.name, md5)
      case None => RuleResult(SessionErr, p, [])
      case Some(name) =>
        var c := CreateDirs(p, p.instancePrefix + name, user, flags, env.dirs);
        if c.status != Success then RuleResult(SessionErr, c.rule, c.actions)
        else if !env.bindOk then RuleResult(SessionErr, c.rule, c.actions + [Bind(c.ipath, p.dir)])
        else RuleResult(Success, c.rule, c.actions + [Bind(c.ipath, p.dir)])
  }

  /**
    ns_setup as written: create_dirs' result is tested with `< 0`, but create_dirs
    returns PAM_SUCCESS or the positive PAM_SESSION_ERR, so the bind mount is
    attempted even after create_dirs failed, and create_dirs' status is returned.
   */
  function NsSetupAsWritten(p: PolyDir, user: string, flags: Flags, md5: string -> Digest,
                            env: SetupEnv): RuleResult
  {
    if p.meth == TmpFs then NsSetup(p, user, flags, md5, env)
    else match PolyName(p.meth, user, flags, env.name, md5)
      case None => RuleResult(SessionErr, p, [])
      case Some(name) =>
        var c := CreateDirs(p, p.instancePrefix + name, user, flags, env.dirs);
        if !env.bindOk then RuleResult(SessionErr, c.rule, c.actions + [Bind(c.ipath, p.dir)])
        else RuleResult(c.status, c.rule, c.actions + [Bind(c.ipath, p.dir)])
  }

  /** ns_setup as pam_namespace.c writes it when `asWritten`, otherwise with the intended check. */
  function NsSetupBy(asWritten: bool, p: PolyDir, user: string, flags: Flags, md5: string -> Digest,
                     env: SetupEnv): RuleResult
  {
    if asWritten then NsSetupAsWritten(p, user, flags, md5, env) else NsSetup(p, user, flags, md5, env)
  }

  // ---------------------------------------------------------------------
  // inst_init

  /** inst_init succeeds exactly when the script is absent or ran and exited, whatever its exit code. */
  lemma InstInitSucceeds(dir: string, ipath: string, newDir: bool, user: string, env: InitEnv)
    ensures InstInit(dir, ipath, newDir, user, env).status == Success <==>
              env.signalOk && (env.script == NoScript || (env.script == Executable && env.run.Exited?))
    ensures InstInit(dir, ipath, newDir, user, env).status in {Success, SessionErr}
  {
  }

  /** The script is started (with these arguments) exactly when it is executable and fork succeeds. */
  lemma InstInitStartsScript(dir: string, ipath: string, newDir: bool, user: string, env: InitEnv)
    ensures var r := InstInit(dir, ipath, newDir, user, env);
            && (r.actions != [] <==> env.signalOk && env.script == Executable && !env.run.ForkFails?)
            && (r.actions != [] ==> r.actions == [RunInit(dir, ipath, newDir, user)])
  {
  }

  // ---------------------------------------------------------------------
  // create_dirs

  /** Nothing is created unless the polydir is a directory and the instance parent passes its check. */
  lemma CreateDirsChecksFirst(p: PolyDir, ipath: string, user: string, flags: Flags, env: DirEnv)
    requires p.dir !in env.fs || !env.fs[p.dir].isDir || CheckInstParent(ipath, env.fs, flags) != Success
    ensures var c := CreateDirs(p, ipath, user, flags, env);
            c.status == SessionErr && c.actions == [] && c.rule == p && c.ipath == ipath
  {
  }

  /** Success implies the polydir is a directory and the instance parent passed its check. */
  lemma CreateDirsSuccess(p: PolyDir, ipath: string, user: string, flags: Flags, env: DirEnv)
    requires CreateDirs(p, ipath, user, flags, env).status == Success
    ensures p.dir in env.fs && env.fs[p.dir].isDir
    ensures CheckInstParent(ipath, env.fs, flags) == Success
    ensures var parent := InstParent(ipath);
            parent in env.fs && env.fs[parent].isDir
            && (flags.ignInstParentMode || env.fs[parent].mode % 512 == 0)
  {
    CheckInstParentAccepts(ipath, env.fs, flags);
  }

  /** The failure path of Provisioned ends by removing the directory, and nothing else is removed. */
  lemma {:induction false} ProvisionedRemoves(dir: string, ipath: string, st: Stat, user: string,
                                              flags: Flags, env: DirEnv, x: string)
    ensures var r := Provisioned(dir, ipath, st, user, flags, env);
            && (Rmdir(x) in r.actions ==> x == ipath && r.status == SessionErr)
            && (r.status == SessionErr && Rmdir(ipath) !in r.actions ==>
                  InstInit(dir, ipath, true, user, env.init).status == SessionErr)
  {
    var r := Provisioned(dir, ipath, st, user, flags, env);
    var init := InstInit(dir, ipath, true, user, env.init);
    assert forall a :: a in init.actions ==> a.RunInit?;
  }

  /**
    create_dirs removes only a directory it has just made itself: an instance that
    already existed is never removed, chowned or chmodded.
   */
  lemma CreateDirsRemovesOnlyItsOwn(p: PolyDir, ipath: string, user: string, flags: Flags,
                                    env: DirEnv, x: string)
    requires Rmdir(x) in CreateDirs(p, ipath, user, flags, env).actions
    ensures var c := CreateDirs(p, ipath, user, flags, env);
            && c.status == SessionErr && x == c.ipath
            && (p.meth == TmpDir ==> env.tempDir == Some(x))
            && (p.meth != TmpDir ==> ipath !in env.fs && env.mkdirOk)
  {
    var c := CreateDirs(p, ipath, user, flags, env);
    var st := env.fs[p.dir];
    if p.meth == TmpDir {
      ProvisionedRemoves(p.dir, env.tempDir.value, st, user, flags, env, x);
    } else if ipath in env.fs {
      assert false;
    } else {
      ProvisionedRemoves(p.dir, ipath, st, user, flags, env, x);
    }
  }

  /** An instance that already exists is left as it is: only the init script runs, with newdir 0. */
  lemma CreateDirsExisting(p: PolyDir, ipath: string, user: string, flags: Flags, env: DirEnv)
    requires p.meth != TmpDir && ipath in env.fs
    requires p.dir in env.fs && env.fs[p.dir].isDir && CheckInstParent(ipath, env.fs, flags) == Success
    ensures var c := CreateDirs(p, ipath, user, flags, env);
            var init := InstInit(p.dir, ipath, false, user, env.init);
            c.status == init.status && c.actions == [MakeDir(ipath)] + init.actions
  {
  }

  /**
    A new instance that was fully set up, by mkdir or by mkdtemp, carries the polydir's
    owner and group (changed only when they differ) and its mode bits & 07777.
   */
  lemma CreateDirsCopiesOwnerAndMode(p: PolyDir, ipath: string, user: string, flags: Flags,
                                     env: DirEnv)
    requires p.meth == TmpDir || ipath !in env.fs
    requires CreateDirs(p, ipath, user, flags, env).status == Success
    ensures p.dir in env.fs && env.newStat.Some?
    ensures var c := CreateDirs(p, ipath, user, flags, env);
            var st := env.fs[p.dir];
            var ns := env.newStat.value;
            && Chmod(c.ipath, st.mode % 4096) in c.actions
            && (Chown(c.ipath, st.uid, st.gid) in c.actions <==> (ns.uid != st.uid || ns.gid != st.gid))
            && c.actions[0] == (if p.meth == TmpDir then MakeTemp(p.instancePrefix) else MakeDir(ipath))
  {
    var c := CreateDirs(p, ipath, user, flags, env);
    var st := env.fs[p.dir];
    var r := Provisioned(p.dir, c.ipath, st, user, flags, env);
    var init := InstInit(p.dir, c.ipath, true, user, env.init);
    assert forall a :: a in init.actions ==> a.RunInit?;
  }

  /** A tmpdir rule takes the directory mkdtemp made as its instance prefix, or is disarmed (NONE) if mkdtemp failed. */
  lemma CreateDirsTmpdirRule(p: PolyDir, ipath: string, user: string, flags: Flags, env: DirEnv)
    requires p.meth == TmpDir
    requires p.dir in env.fs && env.fs[p.dir].isDir && CheckInstParent(ipath, env.fs, flags) == Success
    ensures var c := CreateDirs(p, ipath, user, flags, env);
            && (env.tempDir.None? ==> c.status == SessionErr && c.rule == p.(meth := NoMethod))
            && (env.tempDir.Some? ==>
                  c.rule == p.(instancePrefix := env.tempDir.value) && c.ipath == env.tempDir.value)
            && c.actions[0] == MakeTemp(p.instancePrefix)
  {
  }

  /** Only a tmpdir rule is changed, and only in its method or its instance prefix. */
  lemma CreateDirsRuleChange(p: PolyDir, ipath: string, user: string, flags: Flags, env: DirEnv)
    ensures var c := CreateDirs(p, ipath, user, flags, env);
            && c.rule.dir == p.dir && c.rule.uids == p.uids && c.rule.exclusive == p.exclusive
            && (p.meth != TmpDir ==> c.rule == p && c.ipath == ipath)
            && (c.rule.meth == p.meth || c.rule.meth == NoMethod)
  {
  }

  // ---------------------------------------------------------------------
  // ns_setup

  /**
    The instance is bind-mounted only after create_dirs succeeded, and it is the
    directory create_dirs provisioned that is mounted, on the rule's polydir.
   */
  lemma NsSetupBindsOnlyProvisioned(p: PolyDir, user: string, flags: Flags, md5: string -> Digest,
                                    env: SetupEnv, x: string, d: string)
    requires Bind(x, d) in NsSetup(p, user, flags, md5, env).actions
    ensures p.meth != TmpFs && PolyName(p.meth, user, flags, env.name, md5).Some?
    ensures var ipath := p.instancePrefix + PolyName(p.meth, user, flags, env.name, md5).value;
            var c := CreateDirs(p, ipath, user, flags, env.dirs);
            c.status == Success && x == c.ipath && d == p.dir
  {
    if p.meth == TmpFs {
      assert false;
    } else if PolyName(p.meth, user, flags, env.name, md5).Some? {
      var ipath := p.instancePrefix + PolyName(p.meth, user, flags, env.name, md5).value;
      CreateDirsFileCalls(p, ipath, user, flags, env.dirs);
    }
  }

  /** ns_setup succeeds for a non-tmpfs rule exactly when naming, create_dirs and the bind mount all succeed. */
  lemma NsSetupSucceeds(p: PolyDir, user: string, flags: Flags, md5: string -> Digest, env: SetupEnv)
    requires p.meth != TmpFs
    ensures NsSetup(p, user, flags, md5, env).status == Success <==>
              var n := PolyName(p.meth, user, flags, env.name, md5);
              && n.Some?
              && CreateDirs(p, p.instancePrefix + n.value, user, flags, env.dirs).status == Success
              && env.bindOk
    ensures NsSetup(p, user, flags, md5, env).status in {Success, SessionErr}
  {
  }

  /** A tmpfs rule mounts a tmpfs and runs the init script on it, naming nothing and creating nothing. */
  lemma NsSetupTmpfs(p: PolyDir, user: string, flags: Flags, md5: string -> Digest, env: SetupEnv)
    requires p.meth == TmpFs
    ensures var r := NsSetup(p, user, flags, md5, env);
            var init := InstInit(p.dir, "tmpfs", true, user, env.dirs.init);
            && r.rule == p
            && r.actions[0] == MountTmpfs(p.dir)
            && r.status == (if env.tmpfsOk then init.status else SessionErr)
  {
  }

  /** The calls create_dirs may make: directories, their label, owner and mode, and the init script. */
  predicate FileCalls(actions: seq<Action>) {
    forall a :: a in actions ==>
      a.MakeDir? || a.MakeTemp? || a.Label? || a.Chown? || a.Chmod? || a.Rmdir? || a.RunInit?
  }

  lemma InstInitFileCalls(dir: string, ipath: string, newDir: bool, user: string, env: InitEnv)
    ensures FileCalls(InstInit(dir, ipath, newDir, user, env).actions)
  {
  }

  lemma ProvisionedFileCalls(dir: string, ipath: string, st: Stat, user: string, flags: Flags, env: DirEnv)
    ensures FileCalls(Provisioned(dir, ipath, st, user, flags, env).actions)
  {
    InstInitFileCalls(dir, ipath, true, user, env.init);
  }

  /** create_dirs works on the file system only: it never mounts, unshares or touches the rule list. */
  lemma CreateDirsFileCalls(p: PolyDir, ipath: string, user: string, flags: Flags, env: DirEnv)
    ensures FileCalls(CreateDirs(p, ipath, user, flags, env).actions)
  {
    if p.dir in env.fs && env.fs[p.dir].isDir && CheckInstParent(ipath, env.fs, flags) == Success {
      var st := env.fs[p.dir];
      if p.meth == TmpDir {
        if env.tempDir.Some? {
          ProvisionedFileCalls(p.dir, env.tempDir.value, st, user, flags, env);
        }
      } else if ipath in env.fs {
        InstInitFileCalls(p.dir, ipath, false, user, env.init);
      } else if env.mkdirOk {
        ProvisionedFileCalls(p.dir, ipath, st, user, flags, env);
      }
    }
  }

  /**
    As written, ns_setup bind-mounts the instance path over the polydir even when
    create_dirs has failed (for instance because the instance parent is not mode 000).
   */
  lemma NsSetupAsWrittenBindsAfterFailure(p: PolyDir, user: string, flags: Flags,
                                          md5: string -> Digest, env: SetupEnv)
    requires p.meth != TmpFs && PolyName(p.meth, user, flags, env.name, md5).Some?
    requires CreateDirs(p, p.instancePrefix + PolyName(p.meth, user, flags, env.name, md5).value,
                        user, flags, env.dirs).status != Success
    ensures var ipath := p.instancePrefix + PolyName(p.meth, user, flags, env.name, md5).value;
            var c := CreateDirs(p, ipath, user, flags, env.dirs);
            && Bind(c.ipath, p.dir) in NsSetupAsWritten(p, user, flags, md5, env).actions
            && (forall x, d :: Bind(x, d) !in NsSetup(p, user, flags, md5, env).actions)
  {
    var ipath := p.instancePrefix + PolyName(p.meth, user, flags, env.name, md5).value;
    CreateDirsFileCalls(p, ipath, user, flags, env.dirs);
  }

  /**
    The two versions of ns_setup differ only by the bind mount attempted after a failed
    create_dirs: they return the same status and leave the rule alike.
   */
  lemma NsSetupAsWrittenAgrees(p: PolyDir, user: string, flags: Flags, md5: string -> Digest, env: SetupEnv)
    ensures var a := NsSetupAsWritten(p, user, flags, md5, env);
            var r := NsSetup(p, user, flags, md5, env);
            && a.status == r.status && a.rule == r.rule
            && (a.actions == r.actions
                || (r.status != Success && |a.actions| == |r.actions| + 1 && a.actions[..|r.actions|] == r.actions
                    && a.actions[|r.actions|].Bind? && a.actions[|r.actions|].dir == p.dir))
  {
    var a := NsSetupAsWritten(p, user, flags, md5, env);
    var r := NsSetup(p, user, flags, md5, env);
    if p.meth != TmpFs && PolyName(p.meth, user, flags, env.name, md5).Some? {
      var c := CreateDirs(p, p.instancePrefix + PolyName(p.meth, user, flags, env.name, md5).value,
                          user, flags, env.dirs);
      if c.status != Success {
        assert a.actions[..|r.actions|] == c.actions;
      }
    }
  }

  /**
    A concrete case: a `user` rule for /tmp whose instance parent /tmp-inst has mode 0755
    and still holds alice's instance from an earlier session.  create_dirs rejects the
    parent, yet as written the old instance is bind-mounted on /tmp by a mount that
    succeeds, while ns_setup reports PAM_SESSION_ERR; the intended ns_setup makes no call.
   */
  lemma NsSetupAsWrittenExample(md5: string -> Digest, env: SetupEnv)
    requires env.dirs.fs == map["/tmp" := Stat(true, 0, 0, 0x41ff), "/tmp-inst" := Stat(true, 0, 0, 0x41ed),
                                "/tmp-inst/alice" := Stat(true, 1000, 1000, 0x41c0)]
    requires env.bindOk
    ensures var p := PolyDir("/tmp", "/tmp-inst/", User, [], false);
            var flags := Flags(false, false, false, false, false, false, false, false);
            var a := NsSetupAsWritten(p, "alice", flags, md5, env);
            && CreateDirs(p, "/tmp-inst/alice", "alice", flags, env.dirs).status == SessionErr
            && a.actions == [Bind("/tmp-inst/alice", "/tmp")] && a.status == SessionErr
            && NsSetup(p, "alice", flags, md5, env) == RuleResult(SessionErr, p, [])
  {
    var p := PolyDir("/tmp", "/tmp-inst/", User, [], false);
    var flags := Flags(false, false, false, false, false, false, false, false);
    assert PolyName(User, "alice", flags, env.name, md5) == Some("alice");
    assert "/tmp-inst/" + "alice" == "/tmp-inst/alice";
    ExampleParentRejected(p, flags, env.dirs);
  }

  /** In that case the instance parent /tmp-inst fails its check, so create_dirs makes nothing. */
  lemma ExampleParentRejected(p: PolyDir, flags: Flags, env: DirEnv)
    requires p == PolyDir("/tmp", "/tmp-inst/", User, [], false) && !flags.ignInstParentMode
    requires env.fs == map["/tmp" := Stat(true, 0, 0, 0x41ff), "/tmp-inst" := Stat(true, 0, 0, 0x41ed),
                           "/tmp-inst/alice" := Stat(true, 1000, 1000, 0x41c0)]
    ensures CreateDirs(p, "/tmp-inst/alice", "alice", flags, env) == Created(SessionErr, p, "/tmp-inst/alice", [])
  {
    InstParentOfChild("/tmp-inst", "alice");
    assert "/tmp-inst" + "/" + "alice" == "/tmp-inst/alice";
    assert CheckInstParent("/tmp-inst/alice", env.fs, flags) == SessionErr;
  }
}
