/**
  The path computations of pam_namespace: the instance parent that
  check_inst_parent inspects, the prefix test of cwd_in, and the parent
  directory setup_namespace changes to before unmounting a polydir.
 */
module Paths {
  import opened Types
  import opened CStrings

  /** The text before the last '/' of the instance path (the whole path if it has none). */
  function InstParent(ipath: string): (r: string)
    ensures r <= ipath
  {
    match LastIndexOf(ipath, '/')
    case None => ipath
    case Some(k) => ipath[..k]
  }

  /** st_mode & (S_IRWXU|S_IRWXG|S_IRWXO): the nine permission bits. */
  function PermBits(mode: nat): nat { mode % 0x200 }

  /**
    check_inst_parent: the instance parent, as stat() reports it in `fs`, must exist and be
    a directory, and unless ignore_instance_parent_mode is set no permission bit may be set.
   */
  function CheckInstParent(ipath: string, fs: map<string, Stat>, flags: Flags): Status {
    var parent := InstParent(ipath);
    if parent !in fs then SessionErr
    else if !fs[parent].isDir then SessionErr
    else if !flags.ignInstParentMode && PermBits(fs[parent].mode) != 0 then SessionErr
    else Success
  }

  /** What cwd_in reports: getcwd() failed (-1), inside (1) or outside (0). */
  datatype CwdAnswer = CwdFailed | Inside | Outside

  /** cwd_in: strncmp(cwd, dir, strlen(dir)) == 0, with getcwd()'s result as `cwd`. */
  function CwdIn(cwd: Option<string>, dir: string): CwdAnswer {
    if cwd.None? then CwdFailed
    else if PrefixCompare(cwd.value, dir) then Inside
    else Outside
  }

  /** The poly_parent computation: "/" when the only '/' is the first one, else cut at the last '/'. */
  function PolyParent(dir: string): string {
    var first := IndexOf(dir, '/');
    var last := LastIndexOf(dir, '/');
    if first.Some? && last.Some? && first.value == last.value then "/"
    else if last.Some? then dir[..last.value]
    else dir
  }

  // ---------------------------------------------------------------------
  // Properties

  /** The instance parent is accepted exactly when it exists, is a directory and (unless ignored) has mode 000. */
  lemma CheckInstParentAccepts(ipath: string, fs: map<string, Stat>, flags: Flags)
    ensures CheckInstParent(ipath, fs, flags) == Success <==>
              var parent := InstParent(ipath);
              && parent in fs
              && fs[parent].isDir
              && (flags.ignInstParentMode || fs[parent].mode % 512 == 0)
  {
  }

  /** The instance parent of `p/name` is `p` when `name` holds no '/'. */
  lemma {:induction false} InstParentOfChild(p: string, name: string)
    requires '/' !in name
    ensures InstParent(p + "/" + name) == p
  {
    var s := p + "/" + name;
    var k := |p|;
    assert s[k] == '/';
    assert s[k + 1..] == name;
    assert s[k] in s;
    assert s[..k] == p;
  }

  /** cwd_in compares text, not path components: it holds exactly when `dir` is a prefix of the cwd. */
  lemma CwdInIsTextPrefix(cwd: string, dir: string)
    ensures CwdIn(Some(cwd), dir) == Inside <==> dir <= cwd
  {
  }

  /** So a sibling whose name merely starts with the polydir's name counts as inside it. */
  lemma CwdInSiblingQuirk()
    ensures CwdIn(Some("/tmpfoo"), "/tmp") == Inside
    ensures CwdIn(Some("/tmp"), "/tmp/") == Outside
  {
    assert "/tmpfoo"[..4] == "/tmp";
  }

  /** A directory directly under the root has "/" as its parent. */
  lemma {:induction false} PolyParentTopLevel(name: string)
    requires '/' !in name
    ensures PolyParent("/" + name) == "/"
  {
    var dir := "/" + name;
    assert dir[0] == '/';
    assert dir[1..] == name;
  }

  /** A deeper directory `p/name` has `p` as its parent. */
  lemma {:induction false} PolyParentNested(p: string, name: string)
    requires Absolute(p) && '/' !in name
    ensures PolyParent(p + "/" + name) == p
  {
    var dir := p + "/" + name;
    InstParentOfChild(p, name);
    assert dir[0] == '/';
    assert IndexOf(dir, '/') == Some(0);
    assert LastIndexOf(dir, '/').Some? && LastIndexOf(dir, '/').value == |p|;
  }

  /** The parent of an absolute directory other than "/" is strictly shorter, so the cwd moved there is outside it. */
  lemma PolyParentOutside(dir: string)
    requires Absolute(dir) && |dir| > 1
    ensures |PolyParent(dir)| < |dir|
    ensures CwdIn(Some(PolyParent(dir)), dir) == Outside
  {
    assert dir[0] == '/';
  }
}
