/**
  pam_sm_open_session and pam_sm_close_session as methods: the argument
  loops, the instance data they fill in, and the calls into the
  configuration parser and the namespace setup and reset, each proved
  equal to its specification in module Pam.
 */
module Entry {
  import opened Types
  import opened Namespace
  import opened Provision
  import opened Pam
  import Session

  /** The argument loop of pam_sm_open_session. */
  method ParseOpenArgs(argv: seq<string>, flags0: Flags) returns (o: Options)
    ensures o == OpenArgs(argv, flags0, NoUnmnt)
  {
    var flags := flags0;
    var unmnt := NoUnmnt;
    var i := 0;
    while i < |argv|
      invariant 0 <= i <= |argv|
      invariant OpenArgs(argv, flags0, NoUnmnt) == OpenArgs(argv[i..], flags, unmnt)
    {
      var a := argv[i];
      flags, unmnt := ReadOpenArg(flags, unmnt, a);
      if a == "require_selinux" && FlagWord(flags) & SelinuxEnabledBit == 0 {
        return Options(SessionErr, flags, unmnt);
      }
      assert argv[i..][1..] == argv[i + 1..];
      i := i + 1;
    }
    return Options(Success, flags, unmnt);
  }

  /** One argument of pam_sm_open_session: the flag or unmount mode it names. */
  method ReadOpenArg(f: Flags, u: Unmnt, a: string) returns (flags: Flags, unmnt: Unmnt)
    ensures flags == OpenWord(f, a) && unmnt == UnmntWord(u, a)
  {
    flags, unmnt := f, u;
    if a == "debug" {
      flags := flags.(debug := true);
    }
    if a == "gen_hash" {
      flags := flags.(genHash := true);
    }
    if a == "ignore_config_error" {
      flags := flags.(ignConfigErr := true);
    }
    if a == "ignore_instance_parent_mode" {
      flags := flags.(ignInstParentMode := true);
    }
    if a == "unmnt_remnt" {
      unmnt := UnmntRemnt;
    }
    if a == "unmnt_only" {
      unmnt := UnmntOnly;
    }
  }

  /** The argument loop of pam_sm_close_session. */
  method ParseCloseArgs(argv: seq<string>, flags0: Flags) returns (flags: Flags)
    ensures flags == CloseArgs(argv, flags0)
  {
    flags := flags0;
    var i := 0;
    while i < |argv|
      invariant 0 <= i <= |argv|
      invariant CloseArgs(argv, flags0) == CloseArgs(argv[i..], flags)
    {
      var a := argv[i];
      if a == "debug" {
        flags := flags.(debug := true);
      }
      if a == "ignore_config_error" {
        flags := flags.(ignConfigErr := true);
      }
      if a == "no_unmount_on_close" {
        flags := flags.(noUnmountOnClose := true);
      }
      assert argv[i..][1..] == argv[i + 1..];
      i := i + 1;
    }
  }

  /**
    pam_sm_open_session: read the arguments, look up the user, parse the configuration
    into the instance data and set up the namespace when there is a rule.
   */
  method OpenSession(argv: seq<string>, env: PamEnv) returns (r: Opened)
    ensures r == Pam.OpenSession(argv, env)
  {
    var o := ParseOpenArgs(argv, InitialFlags(env.withSelinux, env.selinuxEnabled, env.ctxtBasedInst));
    if o.status != Success {
      return Opened(o.status, false, []);
    }
    if env.pamUser.None? || env.pamUser.value !in env.users {
      return Opened(SessionErr, false, []);
    }
    r := OpenUser(o, env.pamUser.value, env);
  }

  /** The rest of pam_sm_open_session, for the known user `name`. */
  method OpenUser(o: Options, name: string, env: PamEnv) returns (r: Opened)
    requires name in env.users
    ensures r == Pam.OpenUser(o, name, env)
  {
    var idata := new InstanceData(Truncate(name, LoginNameMax - 1), env.users[name].uid, o.flags);
    var rc := idata.ParseConfigFile(env.config, env.users);
    ghost var parsed := UserRules(o, name, env);
    assert rc == parsed.0 && idata.polydirs == parsed.1;
    if rc != Success {
      idata.DelPolydirList();
      return Opened(SessionErr, false, [FreeRules]);
    }
    if idata.polydirs == [] {
      return Opened(Success, false, []);
    }
    r := SetUp(idata, o, name, env);
    assert r == Finish(UserSetup(parsed.1, o, name, env));
  }

  /** setup_namespace over the parsed rules, and del_polydir_list after a failure when the list is still the session's own. */
  method SetUp(idata: InstanceData, o: Options, name: string, env: PamEnv) returns (r: Opened)
    requires name in env.users
    requires idata.user == Truncate(name, LoginNameMax - 1) && idata.uid == env.users[name].uid
    requires idata.flags == o.flags
    modifies idata
    ensures r == Finish(UserSetup(old(idata.polydirs), o, name, env))
  {
    var rc, held, cwd, acts := Session.SetupNamespace(idata, o.unmnt, env.ruser, env.users, env.realUid, env.cwd,
                                                      env.md5, env.storeOk, env.unshareOk, env.envs, env.cleanup, false);
    if rc != Success && !held && Releases(acts) == 0 {
      idata.DelPolydirList();
      acts := acts + [FreeRules];
    }
    return Opened(rc, held, acts);
  }

  /**
    pam_sm_close_session: unless told not to unmount, look up the user, take the rule
    list from the PAM handle, restore the original namespace and clear the handle's slot.
   */
  method CloseSession(argv: seq<string>, env: CloseEnv) returns (r: Run)
    ensures r == Pam.CloseSession(argv, env)
  {
    var flags := ParseCloseArgs(argv, InitialFlags(env.withSelinux, env.selinuxEnabled, env.ctxtBasedInst));
    if flags.noUnmountOnClose {
      return Run(Success, []);
    }
    if env.pamUser.None? || env.pamUser.value !in env.users {
      return Run(SessionErr, []);
    }
    var name := env.pamUser.value;
    var idata := new InstanceData(Truncate(name, LoginNameMax - 1), env.users[name].uid, flags);
    if env.stored.None? {
      return Run(Success, []);
    }
    idata.polydirs := env.stored.value;
    var rc, acts := Session.OrigNamespace(idata, env.umountOk, env.cleanup);
    return Run(Success, acts + [ClearRules]);
  }
}
