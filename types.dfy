/**
  The data model of pam_namespace: polyinstantiation methods, the rule
  record (struct polydir_s), the option flags of one session, PAM status
  codes, file status records and the abstract actions the module performs
  on the kernel and on the PAM handle.
 */
module Types {

  datatype Option<+T> = None | Some(value: T)

  type Uid = nat
  type Gid = nat

  /** Size of the `dir` and `instance_prefix` buffers of a rule (PATH_MAX). */
  const PathMax: nat := 4096
  /** Longest instance name kept verbatim (NAMESPACE_MAX_DIR_LEN). */
  const MaxDirLen: nat := 80
  /** Size of the `user` buffer of the instance data (LOGIN_NAME_MAX). */
  const LoginNameMax: nat := 256
  /** Number of hex characters of an MD5 digest (2 * MD5_DIGEST_LENGTH). */
  const HashLen: nat := 32

  /** Polyinstantiation method of a rule; `NoMethod` is pam_namespace.c's NONE. */
  datatype Method = NoMethod | User | Context | Level | TmpDir | TmpFs

  /** One rule of the configuration file (struct polydir_s without its `next` link). */
  datatype PolyDir = PolyDir(
    dir: string,
    instancePrefix: string,
    meth: Method,
    uids: seq<Uid>,
    exclusive: bool)

  /** The bits of `idata->flags`; `withSelinux` stands for the compile-time WITH_SELINUX switch. */
  datatype Flags = Flags(
    withSelinux: bool,
    debug: bool,
    selinuxEnabled: bool,
    ctxtBasedInst: bool,
    genHash: bool,
    ignConfigErr: bool,
    ignInstParentMode: bool,
    noUnmountOnClose: bool)

  /** The unmount mode requested by the options of pam_sm_open_session. */
  datatype Unmnt = NoUnmnt | UnmntRemnt | UnmntOnly

  /** PAM return codes used by the module. */
  datatype Status = Success | ServiceErr | SystemErr | SessionErr

  /** The fields of a passwd entry the module reads (pw_uid, pw_dir). */
  datatype Passwd = Passwd(uid: Uid, home: string)

  /** The errno of a failed umount: EINVAL (not a mount point) is told apart from any other. */
  datatype Errno = EINVAL | OtherErrno

  /** What stat()/fstat() reports: the directory bit, owner, group and `st_mode`. */
  datatype Stat = Stat(isDir: bool, uid: Uid, gid: Gid, mode: nat)

  /**
    The calls by which the module changes the kernel, the file system or the PAM
    handle, in the order it makes them; whether each succeeds is up to the environment.
   */
  datatype Action =
    | SaveRules                                      // pam_set_data of the rule list
    | ClearRules                                     // pam_set_data(..., NULL)
    | FreeRules                                      // del_polydir_list of the rule list
    | Unshare                                        // unshare(CLONE_NEWNS)
    | Chdir(path: string)
    | Umount(dir: string)
    | MountTmpfs(dir: string)
    | MakeDir(path: string)                          // mkdir of the instance
    | MakeTemp(template: string)                     // mkdtemp of a tmpdir instance
    | Label(path: string)                            // fsetfilecon on the new directory
    | Chown(path: string, uid: Uid, gid: Gid)
    | Chmod(path: string, mode: nat)
    | Rmdir(path: string)
    | RunInit(dir: string, ipath: string, newDir: bool, user: string) // the init script
    | Bind(ipath: string, dir: string)               // bind mount of the instance
    | RmTmp(path: string)                            // /bin/rm -rf of a tmpdir instance
}
